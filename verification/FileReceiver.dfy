/** The receiving half of a file transfer, as functions on its tables and what they keep. */
module FileReceiver {
  import opened Wrappers
  import opened Bytes
  import opened FilePackets

  // Milliseconds after which an entry is forgotten.
  const INCOMING_TIMEOUT: int := 20_000
  const COMPLETED_TTL: int := 30_000
  const PENDING_PROMPT_TTL: int := 60_000
  const REJECTED_TTL: int := 45_000

  /** `data` is what has been written to the transfer's own stream. */
  datatype Transfer = Transfer(
    peerId: string, fileName: seq<byte>, chunkCount: nat, nextChunkIndex: nat, totalSize: nat,
    writtenBytes: nat, data: seq<byte>, lastUpdate: int)

  datatype Completed = Completed(chunkCount: nat, completedAt: int)

  datatype Prompt = Prompt(
    peerId: string, transferId: nat, fileName: seq<byte>, chunkCount: nat, totalSize: nat,
    createdAt: int, lastUpdate: int)

  /** A finalized file: the transfer it came from, its content, and how many bytes its close failed to write. */
  datatype StoredFile = StoredFile(key: string, content: seq<byte>, lost: nat)

  /** What the file system answers during one call. The stream buffers: closing it may fail to write the last `lost`
    * bytes, and nobody looks whether it did. */
  datatype Io = Io(openOk: bool, writeOk: bool, renameOk: bool, lost: nat)

  /** What reaches the disk of a stream whose close loses that many bytes. */
  function Flushed(data: seq<byte>, lost: nat): (kept: seq<byte>)
    ensures kept <= data
    ensures kept == data <==> lost == 0 || data == []
  {
    data[..if lost < |data| then |data| - lost else 0]
  }

  /** The file was finalized under this key, short of what its close lost. */
  ghost predicate HasFile(files: set<StoredFile>, key: string, file: seq<byte>) {
    exists f :: f in files && f.key == key && f.content == Flushed(file, f.lost)
  }

  /** No finalized file of this key lost a byte when it was closed. */
  ghost predicate ClosedCleanly(files: set<StoredFile>, key: string) {
    forall f :: f in files && f.key == key ==> f.lost == 0
  }

  datatype Receiver = Receiver(
    approvalRequired: bool,
    incoming: map<string, Transfer>,
    completed: map<string, Completed>,
    pending: map<string, Prompt>,
    queue: seq<Prompt>,
    rejected: map<string, int>,
    files: set<StoredFile>)

  function PromptKey(p: Prompt): string {
    MakeIncomingFileKey(p.peerId, p.transferId)
  }

  // ---------------------------------------------------------------- expiry

  function Unexpired<V>(m: map<string, V>, now: int, ttl: int, stamp: V -> int): map<string, V> {
    map k | k in m && now - stamp(m[k]) <= ttl :: m[k]
  }

  function StillPending(queue: seq<Prompt>, keys: set<string>): seq<Prompt> {
    if queue == [] then []
    else
      var rest := StillPending(queue[..|queue| - 1], keys);
      var last := queue[|queue| - 1];
      if PromptKey(last) in keys then rest + [last] else rest
  }

  function Cleanup(r: Receiver, now: int): Receiver {
    var pending := Unexpired(r.pending, now, PENDING_PROMPT_TTL, (p: Prompt) => p.lastUpdate);
    r.(incoming := Unexpired(r.incoming, now, INCOMING_TIMEOUT, (t: Transfer) => t.lastUpdate),
       completed := Unexpired(r.completed, now, COMPLETED_TTL, (c: Completed) => c.completedAt),
       pending := pending,
       queue := StillPending(r.queue, pending.Keys),
       rejected := Unexpired(r.rejected, now, REJECTED_TTL, (at: int) => at))
  }

  // ---------------------------------------------------------------- handlers

  function Begin(r: Receiver, key: string, p: Prompt, now: int): Receiver {
    r.(incoming := r.incoming[key := Transfer(p.peerId, p.fileName, p.chunkCount, 0, p.totalSize, 0, [], now)])
  }

  function HandleMeta(r: Receiver, peer: string, p: Packet, now: int, io: Io): (Receiver, Option<Packet>)
    requires p.Meta?
  {
    var t := p.transferId;
    var key := MakeIncomingFileKey(peer, t);
    var prompt := Prompt(peer, t, p.fileName, p.chunkCount, p.totalSize, now, now);
    var metaAck := Some(Ack(t, FILE_META_CHUNK_INDEX));
    if key in r.rejected then (r.(rejected := r.rejected[key := now]), Some(Reject(t)))
    else if key in r.completed then (r, metaAck)
    else if key in r.incoming then
      (r.(incoming := r.incoming[key := r.incoming[key].(lastUpdate := now)]), metaAck)
    else if r.approvalRequired then
      if key in r.pending then
        (r.(pending := r.pending[key := r.pending[key].(lastUpdate := now)]), None)
      else
        (r.(pending := r.pending[key := prompt], queue := r.queue + [prompt]), None)
    else if io.openOk then (Begin(r, key, prompt, now), metaAck)
    else (r, None)
  }

  /** Writes the next chunk and finalizes the file when it is the last one. */
  function AcceptChunk(r: Receiver, key: string, x: Transfer, t: nat, payload: seq<byte>, now: int, io: Io)
    : (Receiver, Option<Packet>)
  {
    var dropped := r.(incoming := r.incoming - {key});
    if !io.writeOk then (dropped, None)
    else
      var y := x.(data := x.data + payload, writtenBytes := x.writtenBytes + |payload|,
                  nextChunkIndex := x.nextChunkIndex + 1, lastUpdate := now);
      var ack := Some(Ack(t, x.nextChunkIndex));
      if y.nextChunkIndex == y.chunkCount && y.writtenBytes == y.totalSize then
        if !io.renameOk then (dropped, None)
        else
          (dropped.(completed := r.completed[key := Completed(y.chunkCount, now)],
                    files := r.files + {StoredFile(key, Flushed(y.data, io.lost), io.lost)}), ack)
      else (r.(incoming := r.incoming[key := y]), ack)
  }

  function HandleData(r: Receiver, peer: string, p: Packet, now: int, io: Io): (Receiver, Option<Packet>)
    requires p.Data?
  {
    var t, k := p.transferId, p.chunkIndex;
    var key := MakeIncomingFileKey(peer, t);
    if key in r.rejected then (r.(rejected := r.rejected[key := now]), Some(Reject(t)))
    else if key in r.completed then (r, if k < r.completed[key].chunkCount then Some(Ack(t, k)) else None)
    else if key !in r.incoming then (r, None)
    else
      var x := r.incoming[key];
      var touched := r.(incoming := r.incoming[key := x.(lastUpdate := now)]);
      if k > x.nextChunkIndex || k >= x.chunkCount then (touched, None)
      else if k < x.nextChunkIndex then (touched, Some(Ack(t, k)))
      else if |p.payload| != ChunkSize(x.totalSize, k) then (touched, None)
      else AcceptChunk(r, key, x, t, p.payload, now, io)
  }

  /** A metadata or data packet, after the expiry sweep that precedes it. */
  function HandlePacket(r: Receiver, peer: string, p: Packet, now: int, io: Io): (Receiver, Option<Packet>) {
    match p
    case Meta(_, _, _, _) => HandleMeta(r, peer, p, now, io)
    case Data(_, _, _) => HandleData(r, peer, p, now, io)
    case _ => (r, None)
  }

  function Accept(r: Receiver, peer: string, t: nat, now: int, io: Io): (Receiver, Option<Packet>) {
    var key := MakeIncomingFileKey(peer, t);
    if key in r.pending && io.openOk then
      (Begin(r, key, r.pending[key], now).(pending := r.pending - {key}), Some(Ack(t, FILE_META_CHUNK_INDEX)))
    else (r, None)
  }

  function Decline(r: Receiver, peer: string, t: nat, now: int): (Receiver, Option<Packet>) {
    var key := MakeIncomingFileKey(peer, t);
    if key in r.pending then
      (r.(rejected := r.rejected[key := now], pending := r.pending - {key}), Some(Reject(t)))
    else (r, None)
  }

  function Pop(r: Receiver): (Receiver, Option<Prompt>) {
    if r.queue == [] then (r, None) else (r.(queue := r.queue[1..]), Some(r.queue[0]))
  }

  function Stop(r: Receiver): Receiver {
    Receiver(r.approvalRequired, map[], map[], map[], [], map[], r.files)
  }

  function NewReceiver(approvalRequired: bool): Receiver {
    Receiver(approvalRequired, map[], map[], map[], [], map[], {})
  }

  // ---------------------------------------------------------------- what the tables keep

  /** How many of the four tables hold a key. */
  function Places(r: Receiver, key: string): nat {
    (if key in r.incoming then 1 else 0) + (if key in r.completed then 1 else 0)
    + (if key in r.pending then 1 else 0) + (if key in r.rejected then 1 else 0)
  }

  /**
   * A running transfer has written exactly what its chunk count so far allows, and is not complete.
   * This rests on the receiver alone: it holds for metadata no honest sender would announce.
   */
  predicate TransferInv(x: Transfer) {
    && 1 <= x.chunkCount < TWO32
    && x.totalSize <= MAX_FILE_TRANSFER_BYTES
    && x.nextChunkIndex <= x.chunkCount
    && |x.data| == x.writtenBytes == Min(x.totalSize, FILE_CHUNK_PAYLOAD * x.nextChunkIndex)
    && !(x.nextChunkIndex == x.chunkCount && x.writtenBytes == x.totalSize)
  }

  predicate PromptInv(key: string, p: Prompt) {
    key == PromptKey(p) && 1 <= p.chunkCount < TWO32 && p.totalSize <= MAX_FILE_TRANSFER_BYTES
  }

  predicate KeyInv(r: Receiver, key: string) {
    && Places(r, key) <= 1
    && (!r.approvalRequired ==> key !in r.pending)
    && (key in r.incoming ==> TransferInv(r.incoming[key]))
    && (key in r.completed ==> 1 <= r.completed[key].chunkCount < TWO32)
    && (key in r.pending ==> PromptInv(key, r.pending[key]))
  }

  ghost predicate TablesInv(r: Receiver) {
    forall key :: KeyInv(r, key)
  }

  ghost predicate SameAt(r: Receiver, s: Receiver, key: string) {
    && (key in r.incoming <==> key in s.incoming)
    && (key in r.completed <==> key in s.completed)
    && (key in r.pending <==> key in s.pending)
    && (key in r.rejected <==> key in s.rejected)
    && (key in r.incoming ==> r.incoming[key] == s.incoming[key])
    && (key in r.completed ==> r.completed[key] == s.completed[key])
    && (key in r.pending ==> r.pending[key] == s.pending[key])
    && (key in r.rejected ==> r.rejected[key] == s.rejected[key])
  }

  /** A step that touches the tables at one key only, and never flips the approval flag. */
  ghost predicate Touches(r: Receiver, s: Receiver, key: string) {
    && s.approvalRequired == r.approvalRequired
    && (forall other :: other != key ==> SameAt(r, s, other))
  }

  lemma TouchKeepsTables(r: Receiver, s: Receiver, key: string)
    requires TablesInv(r) && Touches(r, s, key) && KeyInv(s, key)
    ensures TablesInv(s)
  {
    forall other ensures KeyInv(s, other) {
      assert KeyInv(r, other);
      if other != key {
        assert SameAt(r, s, other);
      }
    }
  }

  lemma CleanupKeepsTables(r: Receiver, now: int)
    requires TablesInv(r)
    ensures TablesInv(Cleanup(r, now))
  {
    forall key ensures KeyInv(Cleanup(r, now), key) {
      assert KeyInv(r, key);
    }
  }

  lemma AcceptChunkTouches(r: Receiver, key: string, t: nat, payload: seq<byte>, now: int, io: Io)
    requires KeyInv(r, key) && key in r.incoming
    requires r.incoming[key].nextChunkIndex < r.incoming[key].chunkCount
    requires |payload| == ChunkSize(r.incoming[key].totalSize, r.incoming[key].nextChunkIndex)
    ensures
      var post := AcceptChunk(r, key, r.incoming[key], t, payload, now, io).0;
      Touches(r, post, key) && KeyInv(post, key) && post.queue == r.queue
  {
  }

  lemma RefreshTouches(r: Receiver, s: Receiver, key: string, now: int)
    requires KeyInv(r, key) && Refreshed(r, s, key, now)
    ensures Touches(r, s, key) && KeyInv(s, key)
  {
  }

  lemma BeginTouches(r: Receiver, p: Prompt, now: int)
    requires PromptInv(PromptKey(p), p) && Places(r, PromptKey(p)) == 0
    ensures Touches(r, Begin(r, PromptKey(p), p, now), PromptKey(p))
    ensures KeyInv(Begin(r, PromptKey(p), p, now), PromptKey(p))
  {
  }

  lemma PendingTouches(r: Receiver, p: Prompt, queue: seq<Prompt>)
    requires r.approvalRequired && PromptInv(PromptKey(p), p)
    requires PromptKey(p) !in r.incoming && PromptKey(p) !in r.completed && PromptKey(p) !in r.rejected
    ensures var s := r.(pending := r.pending[PromptKey(p) := p], queue := queue);
      Touches(r, s, PromptKey(p)) && KeyInv(s, PromptKey(p))
  {
  }

  lemma HandleMetaTouches(r: Receiver, peer: string, p: Packet, now: int, io: Io)
    requires p.Meta? && Fits(p) && Acceptable(p)
    requires KeyInv(r, MakeIncomingFileKey(peer, p.transferId))
    ensures
      var key := MakeIncomingFileKey(peer, p.transferId);
      var post := HandleMeta(r, peer, p, now, io).0;
      Touches(r, post, key) && KeyInv(post, key)
  {
    hide Touches, Begin;
    var key := MakeIncomingFileKey(peer, p.transferId);
    var prompt := Prompt(peer, p.transferId, p.fileName, p.chunkCount, p.totalSize, now, now);
    if key in r.rejected || key in r.completed || key in r.incoming {
      RefreshTouches(r, HandleMeta(r, peer, p, now, io).0, key, now);
    } else if !r.approvalRequired {
      BeginTouches(r, prompt, now);
      RefreshTouches(r, r, key, now);
    } else if key in r.pending {
      PendingTouches(r, r.pending[key].(lastUpdate := now), r.queue);
    } else {
      PendingTouches(r, prompt, r.queue + [prompt]);
    }
  }

  lemma HandleDataTouches(r: Receiver, peer: string, p: Packet, now: int, io: Io)
    requires p.Data? && KeyInv(r, MakeIncomingFileKey(peer, p.transferId))
    ensures
      var key := MakeIncomingFileKey(peer, p.transferId);
      var post := HandleData(r, peer, p, now, io).0;
      Touches(r, post, key) && KeyInv(post, key)
  {
    hide Touches, KeyInv, AcceptChunk;
    var key := MakeIncomingFileKey(peer, p.transferId);
    if TakesChunk(r, key, p) {
      AcceptChunkTouches(r, key, p.transferId, p.payload, now, io);
    } else {
      OtherDataOnlyRefreshes(r, peer, p, now, io);
      RefreshTouches(r, HandleData(r, peer, p, now, io).0, key, now);
    }
  }

  lemma HandlePacketTouches(r: Receiver, peer: string, p: Packet, now: int, io: Io)
    requires Fits(p) && Acceptable(p) && KeyInv(r, MakeIncomingFileKey(peer, p.transferId))
    ensures
      var key := MakeIncomingFileKey(peer, p.transferId);
      var post := HandlePacket(r, peer, p, now, io).0;
      Touches(r, post, key) && KeyInv(post, key)
  {
    hide HandleMeta, HandleData;
    if p.Meta? {
      HandleMetaTouches(r, peer, p, now, io);
    } else if p.Data? {
      HandleDataTouches(r, peer, p, now, io);
    }
  }

  lemma HandlePacketKeepsTables(r: Receiver, peer: string, p: Packet, now: int, io: Io)
    requires TablesInv(r) && Fits(p) && Acceptable(p)
    ensures TablesInv(HandlePacket(r, peer, p, now, io).0)
  {
    var key := MakeIncomingFileKey(peer, p.transferId);
    assert KeyInv(r, key);
    HandlePacketTouches(r, peer, p, now, io);
    TouchKeepsTables(r, HandlePacket(r, peer, p, now, io).0, key);
  }

  lemma AcceptKeepsTables(r: Receiver, peer: string, t: nat, now: int, io: Io)
    requires TablesInv(r)
    ensures TablesInv(Accept(r, peer, t, now, io).0)
  {
    var key := MakeIncomingFileKey(peer, t);
    assert KeyInv(r, key);
    TouchKeepsTables(r, Accept(r, peer, t, now, io).0, key);
  }

  lemma DeclineKeepsTables(r: Receiver, peer: string, t: nat, now: int)
    requires TablesInv(r)
    ensures TablesInv(Decline(r, peer, t, now).0)
  {
    var key := MakeIncomingFileKey(peer, t);
    assert KeyInv(r, key);
    TouchKeepsTables(r, Decline(r, peer, t, now).0, key);
  }

  // ---------------------------------------------------------------- the prompt queue

  ghost predicate QueueDistinct(q: seq<Prompt>) {
    forall i, j :: 0 <= i < j < |q| ==> PromptKey(q[i]) != PromptKey(q[j])
  }

  ghost predicate OldestFirst(q: seq<Prompt>, clock: int) {
    && (forall i :: 0 <= i < |q| ==> q[i].createdAt <= clock)
    && (forall i, j :: 0 <= i < j < |q| ==> q[i].createdAt <= q[j].createdAt)
  }

  /** A queued prompt whose key is pending is the pending request itself, up to its refresh time. */
  ghost predicate QueueMirrors(r: Receiver) {
    forall i :: 0 <= i < |r.queue| && PromptKey(r.queue[i]) in r.pending ==>
      r.pending[PromptKey(r.queue[i])].(lastUpdate := r.queue[i].lastUpdate) == r.queue[i]
  }

  ghost predicate QueueInv(r: Receiver, clock: int) {
    QueueDistinct(r.queue) && OldestFirst(r.queue, clock) && QueueMirrors(r)
  }

  /** Every queued prompt is still pending; true right after an expiry sweep. */
  ghost predicate Swept(r: Receiver) {
    forall i :: 0 <= i < |r.queue| ==> PromptKey(r.queue[i]) in r.pending
  }

  lemma {:induction false} StillPendingHolds(q: seq<Prompt>, keys: set<string>)
    ensures forall p :: p in StillPending(q, keys) <==> p in q && PromptKey(p) in keys
  {
    if q != [] {
      var init, last := q[..|q| - 1], q[|q| - 1];
      StillPendingHolds(init, keys);
      assert q == init + [last];
    }
  }

  lemma {:induction false} StillPendingKeepsOrder(q: seq<Prompt>, keys: set<string>, clock: int)
    requires OldestFirst(q, clock)
    ensures OldestFirst(StillPending(q, keys), clock)
  {
    if q != [] {
      var init, last := q[..|q| - 1], q[|q| - 1];
      var rest := StillPending(init, keys);
      StillPendingKeepsOrder(init, keys, clock);
      StillPendingHolds(init, keys);
      forall i | 0 <= i < |rest| ensures rest[i].createdAt <= last.createdAt {
        assert rest[i] in init;
      }
    }
  }

  lemma {:induction false} StillPendingKeepsDistinct(q: seq<Prompt>, keys: set<string>)
    requires QueueDistinct(q)
    ensures QueueDistinct(StillPending(q, keys))
  {
    hide PromptKey;
    if q != [] {
      var init, last := q[..|q| - 1], q[|q| - 1];
      var rest := StillPending(init, keys);
      StillPendingKeepsDistinct(init, keys);
      StillPendingHolds(init, keys);
      forall i | 0 <= i < |rest| ensures PromptKey(rest[i]) != PromptKey(last) {
        assert rest[i] in init;
      }
    }
  }

  lemma StillPendingIsFilter(q: seq<Prompt>, keys: set<string>)
    ensures var f := StillPending(q, keys);
      && (forall p :: p in f <==> p in q && PromptKey(p) in keys)
      && (forall clock :: OldestFirst(q, clock) ==> OldestFirst(f, clock))
      && (QueueDistinct(q) ==> QueueDistinct(f))
  {
    hide StillPending, OldestFirst, QueueDistinct;
    StillPendingHolds(q, keys);
    forall clock | OldestFirst(q, clock) ensures OldestFirst(StillPending(q, keys), clock) {
      StillPendingKeepsOrder(q, keys, clock);
    }
    if QueueDistinct(q) {
      StillPendingKeepsDistinct(q, keys);
    }
  }

  lemma CleanupSweeps(r: Receiver, clock: int, now: int)
    requires QueueInv(r, clock) && clock <= now
    ensures QueueInv(Cleanup(r, now), now) && Swept(Cleanup(r, now))
  {
    var c := Cleanup(r, now);
    StillPendingIsFilter(r.queue, c.pending.Keys);
    assert OldestFirst(r.queue, now);
    forall i | 0 <= i < |c.queue|
      ensures PromptKey(c.queue[i]) in c.pending
      ensures c.pending[PromptKey(c.queue[i])].(lastUpdate := c.queue[i].lastUpdate) == c.queue[i]
    {
      assert c.queue[i] in c.queue;
      assert c.queue[i] in r.queue;
    }
  }

  lemma HandleDataLeavesPrompts(r: Receiver, peer: string, p: Packet, now: int, io: Io)
    requires p.Data?
    ensures var post := HandleData(r, peer, p, now, io).0; post.queue == r.queue && post.pending == r.pending
  {
  }

  lemma NewPromptKeepsQueue(r: Receiver, prompt: Prompt, now: int)
    requires QueueInv(r, now) && Swept(r) && PromptKey(prompt) !in r.pending && prompt.createdAt == now
    ensures QueueInv(r.(pending := r.pending[PromptKey(prompt) := prompt], queue := r.queue + [prompt]), now)
  {
  }

  lemma RefreshedPromptKeepsQueue(r: Receiver, key: string, now: int)
    requires QueueInv(r, now) && key in r.pending
    ensures QueueInv(r.(pending := r.pending[key := r.pending[key].(lastUpdate := now)]), now)
  {
  }

  lemma SamePromptsKeepQueue(r: Receiver, s: Receiver, clock: int)
    requires QueueInv(r, clock) && s.queue == r.queue && s.pending == r.pending
    ensures QueueInv(s, clock)
  {
  }

  /** Adding a request needs the sweep: only then can no old prompt carry the new key. */
  lemma HandlePacketKeepsQueue(r: Receiver, peer: string, p: Packet, now: int, io: Io)
    requires QueueInv(r, now) && Swept(r)
    ensures QueueInv(HandlePacket(r, peer, p, now, io).0, now)
  {
    hide QueueInv;
    var key := MakeIncomingFileKey(peer, p.transferId);
    var post := HandlePacket(r, peer, p, now, io).0;
    if p.Data? {
      HandleDataLeavesPrompts(r, peer, p, now, io);
      SamePromptsKeepQueue(r, post, now);
    } else if p.Meta? && key !in r.rejected && key !in r.completed && key !in r.incoming && r.approvalRequired {
      if key in r.pending {
        RefreshedPromptKeepsQueue(r, key, now);
      } else {
        NewPromptKeepsQueue(r, Prompt(peer, p.transferId, p.fileName, p.chunkCount, p.totalSize, now, now), now);
      }
    } else {
      SamePromptsKeepQueue(r, post, now);
    }
  }

  lemma AcceptKeepsQueue(r: Receiver, peer: string, t: nat, now: int, io: Io, clock: int)
    requires QueueInv(r, clock)
    ensures QueueInv(Accept(r, peer, t, now, io).0, clock)
  {
  }

  lemma DeclineKeepsQueue(r: Receiver, peer: string, t: nat, now: int, clock: int)
    requires QueueInv(r, clock)
    ensures QueueInv(Decline(r, peer, t, now).0, clock)
  {
  }

  lemma PopFromSwept(c: Receiver, now: int)
    requires QueueInv(c, now) && Swept(c) && c.queue != []
    ensures
      var head := c.queue[0];
      var post := Pop(c).0;
      && QueueInv(post, now)
      && PromptKey(head) in post.pending
      && post.pending[PromptKey(head)].(lastUpdate := head.lastUpdate) == head
      && (forall p :: p in post.queue ==> head.createdAt <= p.createdAt && PromptKey(p) != PromptKey(head))
      && (forall p :: p in c.queue ==> p == head || p in post.queue)
  {
  }

  /**
   * PopPendingFilePrompt hands out a request that is still pending, the oldest one left, and leaves the
   * other still-pending requests queued; it comes back empty exactly when no queued request is pending.
   */
  lemma PopIsOldestStillPending(r: Receiver, clock: int, now: int)
    requires QueueInv(r, clock) && clock <= now
    ensures var c := Cleanup(r, now); var (post, out) := Pop(c);
      && QueueInv(post, now)
      && post.pending == c.pending
      && (out.None? <==> forall p :: p in r.queue ==> PromptKey(p) !in c.pending)
      && (out.Some? ==>
        && out.value in r.queue
        && PromptKey(out.value) in post.pending
        && post.pending[PromptKey(out.value)].(lastUpdate := out.value.lastUpdate) == out.value
        && (forall p :: p in post.queue ==>
              out.value.createdAt <= p.createdAt && PromptKey(p) != PromptKey(out.value))
        && (forall p :: p in r.queue && PromptKey(p) in c.pending ==> p == out.value || p in post.queue))
  {
    CleanupSweeps(r, clock, now);
    var c := Cleanup(r, now);
    StillPendingIsFilter(r.queue, c.pending.Keys);
    assert forall p :: p in c.queue <==> p in r.queue && PromptKey(p) in c.pending;
    if c.queue != [] {
      assert c.queue[0] in c.queue;
      PopFromSwept(c, now);
    } else {
      forall p | p in r.queue ensures PromptKey(p) !in c.pending {
        assert p !in c.queue;
      }
    }
  }

  // ---------------------------------------------------------------- when a chunk is taken

  /** The data packet carries exactly the chunk the transfer waits for. */
  predicate TakesChunk(r: Receiver, key: string, p: Packet)
    requires p.Data?
  {
    && key !in r.rejected && key !in r.completed && key in r.incoming
    && p.chunkIndex == r.incoming[key].nextChunkIndex < r.incoming[key].chunkCount
    && |p.payload| == ChunkSize(r.incoming[key].totalSize, p.chunkIndex)
  }

  /** Nothing but a refresh time may have changed. */
  ghost predicate Refreshed(r: Receiver, s: Receiver, key: string, now: int) {
    || s == r
    || (key in r.rejected && s == r.(rejected := r.rejected[key := now]))
    || (key in r.incoming && s == r.(incoming := r.incoming[key := r.incoming[key].(lastUpdate := now)]))
  }

  /** Every other data packet only refreshes, and what it re-acknowledges was accepted before. */
  lemma OtherDataOnlyRefreshes(r: Receiver, peer: string, p: Packet, now: int, io: Io)
    requires p.Data? && !TakesChunk(r, MakeIncomingFileKey(peer, p.transferId), p)
    ensures
      var key := MakeIncomingFileKey(peer, p.transferId);
      var (post, response) := HandleData(r, peer, p, now, io);
      && Refreshed(r, post, key, now)
      && (response.Some? ==>
            || (response.value == Reject(p.transferId) && key in r.rejected)
            || (response.value == Ack(p.transferId, p.chunkIndex)
                && ((key in r.completed && p.chunkIndex < r.completed[key].chunkCount)
                    || (key in r.incoming && p.chunkIndex < r.incoming[key].nextChunkIndex))))
  {
  }

  // ---------------------------------------------------------------- completion

  /**
   * Whatever metadata was accepted, the chunk that fills the announced count completes the transfer
   * exactly when the count covers the announced size; otherwise the transfer can never complete.
   */
  lemma LastChunkCompletes(r: Receiver, peer: string, p: Packet, now: int, lost: nat)
    requires p.Data? && KeyInv(r, MakeIncomingFileKey(peer, p.transferId))
    requires MakeIncomingFileKey(peer, p.transferId) in r.incoming
    requires
      var x := r.incoming[MakeIncomingFileKey(peer, p.transferId)];
      p.chunkIndex == x.nextChunkIndex == x.chunkCount - 1 && |p.payload| == ChunkSize(x.totalSize, p.chunkIndex)
    ensures
      var key := MakeIncomingFileKey(peer, p.transferId);
      var x := r.incoming[key];
      var (post, response) := HandlePacket(r, peer, p, now, Io(true, true, true, lost));
      && response == Some(Ack(p.transferId, p.chunkIndex))
      && (key in post.completed <==> FILE_CHUNK_PAYLOAD * x.chunkCount >= x.totalSize)
      && (key in post.completed ==> StoredFile(key, Flushed(x.data + p.payload, lost), lost) in post.files)
  {
  }

  /** A close that loses bytes is acknowledged all the same: here the only byte of a file. */
  lemma LostByteIsAcknowledged(peer: string, now: int)
    ensures
      var key := MakeIncomingFileKey(peer, 1);
      var r := NewReceiver(false).(incoming := map[key := Transfer(peer, [], 1, 0, 1, 0, [], now)]);
      var (post, response) := HandlePacket(r, peer, Data(1, 0, [7]), now, Io(true, true, true, 1));
      response == Some(Ack(1, 0)) && post.files == {StoredFile(key, [], 1)}
  {
    var key := MakeIncomingFileKey(peer, 1);
    var r := NewReceiver(false).(incoming := map[key := Transfer(peer, [], 1, 0, 1, 0, [], now)]);
    assert TransferInv(r.incoming[key]) && Flushed([] + [7], 1) == [];
    LastChunkCompletes(r, peer, Data(1, 0, [7]), now, 1);
  }

  /** A transfer whose count does not cover its size stays incomplete, whatever is delivered. */
  lemma ShortCountNeverCompletes(r: Receiver, peer: string, p: Packet, now: int, io: Io)
    requires Fits(p) && KeyInv(r, MakeIncomingFileKey(peer, p.transferId))
    requires MakeIncomingFileKey(peer, p.transferId) in r.incoming
    requires
      var x := r.incoming[MakeIncomingFileKey(peer, p.transferId)];
      FILE_CHUNK_PAYLOAD * x.chunkCount < x.totalSize
    ensures
      var key := MakeIncomingFileKey(peer, p.transferId);
      var post := HandlePacket(r, peer, p, now, io).0;
      && key !in post.completed && post.files == r.files
      && (key in post.incoming ==>
            post.incoming[key].chunkCount == r.incoming[key].chunkCount
            && post.incoming[key].totalSize == r.incoming[key].totalSize)
  {
  }
}
