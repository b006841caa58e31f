/** The sending half of a file transfer: stop-and-wait with retries, as a step machine and as the loops it runs. */
module FileSender {
  import opened Wrappers
  import opened Bytes
  import opened FilePackets
  import opened FileEndpoint

  const META_RETRIES: nat := 40
  const CHUNK_RETRIES: nat := 10

  datatype Item = Metadata | Chunk(index: nat)

  datatype SendResult = Sent | Declined | Failed | Halted | ReadError | TooLarge

  datatype Phase =
    | Start(item: Item)                 // about to send the item for the first time
    | Trying(item: Item, used: nat)     // at the head of the retry loop
    | Awaiting(item: Item, used: nat)   // packet out, waiting for its acknowledgement
    | Finished(item: Item, result: SendResult)

  /** `attempts` counts the calls that hand a packet to the socket. */
  datatype Send = Send(
    dest: string, transferId: nat, fileName: seq<byte>, file: seq<byte>, phase: Phase, attempts: nat)

  /** What the sender observes at one step; only the parts its phase looks at matter. */
  datatype Event = Event(running: bool, readOk: bool, sendOk: bool, wait: WaitResult)

  function Retries(item: Item): nat {
    if item.Metadata? then META_RETRIES else CHUNK_RETRIES
  }

  function AckIndex(item: Item): nat {
    if item.Metadata? then FILE_META_CHUNK_INDEX else item.index
  }

  function Chunks(s: Send): nat {
    ChunkCount(|s.file|)
  }

  function PacketFor(s: Send, item: Item): Packet {
    match item
    case Metadata => Meta(s.transferId, Chunks(s), |s.file|, s.fileName)
    case Chunk(i) => Data(s.transferId, i, ChunkOf(s.file, i))
  }

  function AfterAck(s: Send, item: Item, running: bool): Phase {
    if item.Metadata? then Start(Chunk(0))
    else if item.index + 1 < Chunks(s) then Start(Chunk(item.index + 1))
    else Finished(item, if running then Sent else Halted)
  }

  function Step(s: Send, e: Event): Send {
    match s.phase
    case Start(item) =>
      if item.Metadata? then s.(phase := Trying(item, 0))
      else if !e.running then s.(phase := Finished(item, Halted))
      else if ChunkSize(|s.file|, item.index) > 0 && !e.readOk then s.(phase := Finished(item, ReadError))
      else s.(phase := Trying(item, 0))
    case Trying(item, used) =>
      if used >= Retries(item) || !e.running then s.(phase := Finished(item, Failed))
      else s.(attempts := s.attempts + 1,
              phase := if e.sendOk then Awaiting(item, used + 1) else Trying(item, used + 1))
    case Awaiting(item, used) =>
      (match e.wait
       case Acked => s.(phase := AfterAck(s, item, e.running))
       case Rejected => s.(phase := Finished(item, Declined))
       case Stopped => s.(phase := Finished(item, Failed))
       case Timeout => s.(phase := Trying(item, used)))
    case Finished(_, _) => s
  }

  /** The packet a step puts on the wire. */
  function Emitted(s: Send, e: Event): Option<Packet> {
    if s.phase.Trying? && Step(s, e).phase.Awaiting? then Some(PacketFor(s, s.phase.item)) else None
  }

  function NewSend(dest: string, transferId: nat, fileName: seq<byte>, file: seq<byte>): Send {
    Send(dest, transferId, fileName, file, Start(Metadata), 0)
  }

  /** The machine after the events of a script from `lo` up to `hi`. */
  function Run(s: Send, script: nat -> Event, lo: nat, hi: nat): (r: Send)
    requires lo <= hi
    ensures r.dest == s.dest && r.transferId == s.transferId && r.fileName == s.fileName && r.file == s.file
  {
    if lo == hi then s else Step(Run(s, script, lo, hi - 1), script(hi - 1))
  }

  // ---------------------------------------------------------------- termination and the send budget

  predicate ItemInv(s: Send) {
    && (s.phase.item.Chunk? ==> s.phase.item.index < Chunks(s))
    && (s.phase.Trying? || s.phase.Awaiting? ==> s.phase.used <= Retries(s.phase.item))
    && (s.phase.Awaiting? ==> s.phase.used >= 1)
    && (s.phase.Finished? && s.phase.result == Sent ==> s.phase.item == Chunk(Chunks(s) - 1))
  }

  function Limit(s: Send): nat {
    META_RETRIES + CHUNK_RETRIES * Chunks(s)
  }

  /** Attempts still allowed. */
  function Budget(s: Send): int {
    var n := Chunks(s);
    var used := if s.phase.Trying? || s.phase.Awaiting? then s.phase.used else 0;
    if s.phase.Finished? then 0
    else if s.phase.item.Metadata? then Limit(s) - used
    else CHUNK_RETRIES * (n - s.phase.item.index) - used
  }

  predicate SendInv(s: Send) {
    ItemInv(s) && s.attempts + Budget(s) <= Limit(s)
  }

  /** Strictly decreases at every step until the worker has finished. */
  function Rank(s: Send): int {
    var left := if s.phase.item.Metadata? then 23 * Chunks(s) else 23 * (Chunks(s) - 1 - s.phase.item.index);
    var tries := 2 * Retries(s.phase.item);
    match s.phase
    case Start(_) => left + tries + 3
    case Trying(_, used) => left + tries - 2 * used + 2
    case Awaiting(_, used) => left + tries - 2 * used + 3
    case Finished(_, _) => 0
  }

  lemma StepKeepsBudget(s: Send, e: Event)
    requires SendInv(s)
    ensures SendInv(Step(s, e))
  {
    hide ChunkCount, ChunkSize;
  }

  lemma StepLowersRank(s: Send, e: Event)
    requires ItemInv(s)
    ensures Rank(s) >= 0
    ensures !s.phase.Finished? ==> Rank(Step(s, e)) < Rank(s)
  {
    hide ChunkCount, ChunkSize;
  }

  lemma StepProgress(s: Send, e: Event)
    requires SendInv(s)
    ensures SendInv(Step(s, e))
    ensures Rank(s) >= 0
    ensures !s.phase.Finished? ==> Rank(Step(s, e)) < Rank(s)
    ensures Step(s, e).phase.Finished? ==> Rank(Step(s, e)) == 0
  {
    hide Step;
    StepKeepsBudget(s, e);
    StepLowersRank(s, e);
  }

  lemma {:induction false} RunProgress(s: Send, script: nat -> Event, lo: nat, hi: nat)
    requires SendInv(s) && lo <= hi
    ensures SendInv(Run(s, script, lo, hi))
    ensures Run(s, script, lo, hi).phase.Finished? || Rank(Run(s, script, lo, hi)) <= Rank(s) - (hi - lo)
  {
    hide Rank, SendInv, Retries, Chunks, ChunkSize;
    if lo < hi {
      RunProgress(s, script, lo, hi - 1);
      StepProgress(Run(s, script, lo, hi - 1), script(hi - 1));
    }
  }

  /**
   * Whatever the network, the disk, the peer and the user do, the worker finishes, and never hands
   * the socket more than 40 packets for the metadata and 10 for each chunk.
   */
  lemma WorkerAlwaysStops(dest: string, t: nat, name: seq<byte>, file: seq<byte>, script: nat -> Event, steps: nat)
    requires steps >= 83 + 23 * ChunkCount(|file|)
    ensures
      var end := Run(NewSend(dest, t, name, file), script, 0, steps);
      end.phase.Finished? && end.attempts <= META_RETRIES + CHUNK_RETRIES * ChunkCount(|file|)
  {
    var s := NewSend(dest, t, name, file);
    RunProgress(s, script, 0, steps);
    var end := Run(s, script, 0, steps);
    if !end.phase.Finished? {
      StepProgress(end, script(steps));
    }
  }

  // ---------------------------------------------------------------- why a worker finishes

  /** What the attempts so far must come to: one at least for the metadata and each chunk before, and all of the tries
    * of the current item. */
  ghost predicate AttemptsCount(s: Send) {
    var before := if s.phase.item.Metadata? then 0 else 1 + s.phase.item.index;
    match s.phase
    case Start(_) => s.attempts >= before
    case Trying(_, used) => s.attempts >= before + used
    case Awaiting(_, used) => s.attempts >= before + used
    case Finished(_, _) => true
  }

  /** The result has its cause among the events seen before: a failure needs a stop, or every allowed attempt. */
  ghost predicate HasCause(s: Send, script: nat -> Event, n: nat) {
    s.phase.Finished? ==>
      match s.phase.result
      case Sent => s.attempts >= 1 + Chunks(s) && s.phase.item == Chunk(Chunks(s) - 1)
      case Declined => exists k :: 0 <= k < n && script(k).wait == Rejected
      case ReadError => exists k :: 0 <= k < n && !script(k).readOk
      case Halted => exists k :: 0 <= k < n && !script(k).running
      case Failed =>
        || (exists k :: 0 <= k < n && (!script(k).running || script(k).wait == Stopped))
        || s.attempts >= (if s.phase.item.Metadata? then 40 else 1 + s.phase.item.index + 10)
      case TooLarge => false
  }

  lemma StepHasCause(s: Send, script: nat -> Event, n: nat)
    requires ItemInv(s) && AttemptsCount(s) && HasCause(s, script, n)
    ensures AttemptsCount(Step(s, script(n))) && HasCause(Step(s, script(n)), script, n + 1)
  {
    hide ChunkCount, ChunkSize;
    var e := script(n);
  }

  /** A worker gives up an item only after 40 attempts for the metadata or 10 for a chunk, unless it is stopped; it
    * reports a refusal only if one came in, and success only after an attempt for every packet. */
  lemma {:induction false} ResultHasCause(
      dest: string, t: nat, name: seq<byte>, file: seq<byte>, script: nat -> Event, n: nat)
    ensures var end := Run(NewSend(dest, t, name, file), script, 0, n);
      ItemInv(end) && AttemptsCount(end) && HasCause(end, script, n)
  {
    var s := NewSend(dest, t, name, file);
    RunProgress(s, script, 0, n);
    if n > 0 {
      ResultHasCause(dest, t, name, file, script, n - 1);
      StepHasCause(Run(s, script, 0, n - 1), script, n - 1);
    }
  }

  // ---------------------------------------------------------------- the loops

  ghost function At(s: Send, phase: Phase, attempts: nat): Send {
    s.(phase := phase, attempts := s.attempts + attempts)
  }

  lemma TryStep(s: Send, item: Item, used: nat, e: Event)
    requires used < Retries(item) && e.running
    ensures Step(At(s, Trying(item, used), used), e)
         == At(s, if e.sendOk then Awaiting(item, used + 1) else Trying(item, used + 1), used + 1)
  {
  }

  lemma GiveUpStep(s: Send, item: Item, used: nat, e: Event)
    requires used >= Retries(item) || !e.running
    ensures Step(At(s, Trying(item, used), used), e) == At(s, Finished(item, Failed), used)
  {
  }

  lemma WaitStep(s: Send, item: Item, used: nat, e: Event)
    ensures Step(At(s, Awaiting(item, used), used), e)
         == At(s, match e.wait
                  case Acked => AfterAck(s, item, e.running)
                  case Rejected => Finished(item, Declined)
                  case Stopped => Finished(item, Failed)
                  case Timeout => Trying(item, used), used)
  {
  }

  /** The retry loop around one packet; the script's events from `start` on are what it observes. */
  method SendPacketWithAck(ghost s: Send, item: Item, script: nat -> Event, start: nat)
    returns (result: WaitResult, attempts: nat, cursor: nat, ghost after: Send)
    requires s.phase == Trying(item, 0)
    ensures start < cursor && attempts <= Retries(item)
    ensures after == Run(s, script, start, cursor) && after.attempts == s.attempts + attempts
    ensures result == Acked ==> after.phase == AfterAck(s, item, script(cursor - 1).running)
    ensures result == Rejected ==> after.phase == Finished(item, Declined)
    ensures result == Timeout || result == Stopped ==> after.phase == Finished(item, Failed)
  {
    hide Step;
    attempts, cursor, after := 0, start, s;
    while attempts < Retries(item) && script(cursor).running
      invariant start <= cursor && attempts <= Retries(item)
      invariant after == Run(s, script, start, cursor)
      invariant after == At(s, Trying(item, attempts), attempts)
      decreases Retries(item) - attempts
    {
      TryStep(s, item, attempts, script(cursor));
      attempts := attempts + 1;
      var sendOk := script(cursor).sendOk;
      after := Step(after, script(cursor));
      cursor := cursor + 1;
      if !sendOk {
        continue;
      }
      WaitStep(s, item, attempts, script(cursor));
      result := script(cursor).wait;
      after := Step(after, script(cursor));
      cursor := cursor + 1;
      if result != Timeout {
        return;
      }
    }
    GiveUpStep(s, item, attempts, script(cursor));
    after := Step(after, script(cursor));
    cursor := cursor + 1;
    result := Timeout;
  }

  lemma HaltStep(s: Send, index: nat, e: Event)
    requires s.phase == Start(Chunk(index)) && !e.running
    ensures Step(s, e) == s.(phase := Finished(Chunk(index), Halted))
  {
  }

  lemma BeginStep(s: Send, index: nat, e: Event)
    requires s.phase == Start(Chunk(index)) && e.running
    ensures Step(s, e) == s.(phase :=
      if ChunkSize(|s.file|, index) > 0 && !e.readOk then Finished(Chunk(index), ReadError)
      else Trying(Chunk(index), 0))
  {
  }

  /** One round of the chunk loop: read the chunk, then send it with its own retries. */
  method SendChunk(ghost s: Send, fileSize: nat, index: nat, script: nat -> Event, start: nat)
    returns (failure: Option<SendResult>, attempts: nat, cursor: nat, ghost after: Send)
    requires s.phase == Start(Chunk(index)) && |s.file| == fileSize && script(start).running
    ensures start < cursor && attempts <= CHUNK_RETRIES
    ensures after == Run(s, script, start, cursor) && after.attempts == s.attempts + attempts
    ensures failure.None? ==> after.phase == AfterAck(s, Chunk(index), script(cursor - 1).running)
    ensures failure.Some? ==> after.phase == Finished(Chunk(index), failure.value)
  {
    hide Step;
    BeginStep(s, index, script(start));
    ghost var trying := Step(s, script(start));
    assert trying == Run(s, script, start, start + 1);
    if ChunkSize(fileSize, index) > 0 && !script(start).readOk {
      return Some(ReadError), 0, start + 1, trying;
    }
    var reply;
    reply, attempts, cursor, after := SendPacketWithAck(trying, Chunk(index), script, start + 1);
    RunAppend(s, script, start, start + 1, cursor);
    failure := if reply == Acked then None else if reply == Rejected then Some(Declined) else Some(Failed);
  }

  /** Every chunk in turn. */
  method SendChunks(ghost s: Send, fileSize: nat, script: nat -> Event, start: nat)
    returns (result: SendResult, attempts: nat, cursor: nat)
    requires s.phase == Start(Chunk(0)) && |s.file| == fileSize
    ensures start < cursor && attempts <= CHUNK_RETRIES * ChunkCount(fileSize)
    ensures var end := Run(s, script, start, cursor);
      end.phase.Finished? && end.phase.result == result && end.attempts == s.attempts + attempts
  {
    hide Step, ChunkSize;
    var chunkCount := ChunkCount(fileSize);
    var chunkIndex: nat := 0;
    attempts, cursor := 0, start;
    ghost var now := s;
    while chunkIndex < chunkCount && script(cursor).running
      invariant chunkIndex <= chunkCount && start <= cursor && (chunkIndex > 0 ==> start < cursor)
      invariant now == Run(s, script, start, cursor) && now.attempts == s.attempts + attempts
      invariant chunkIndex < chunkCount ==> now.phase == Start(Chunk(chunkIndex))
      invariant chunkIndex == chunkCount ==>
        now.phase == Finished(Chunk(chunkCount - 1), if script(cursor - 1).running then Sent else Halted)
      invariant attempts <= CHUNK_RETRIES * chunkIndex
      decreases chunkCount - chunkIndex
    {
      var failure, used, next;
      failure, used, next, now := SendChunk(now, fileSize, chunkIndex, script, cursor);
      RunAppend(s, script, start, cursor, next);
      cursor, attempts := next, attempts + used;
      if failure.Some? {
        return failure.value, attempts, cursor;
      }
      chunkIndex := chunkIndex + 1;
    }
    if chunkIndex < chunkCount {
      HaltStep(now, chunkIndex, script(cursor));
      cursor := cursor + 1;
      result := Halted;
    } else {
      result := if script(cursor - 1).running then Sent else Halted;
    }
  }

  /** The worker behind one send: metadata first, then the chunks. */
  method SendFileWorker(dest: string, t: nat, name: seq<byte>, file: seq<byte>, script: nat -> Event)
    returns (result: SendResult, attempts: nat, ghost steps: nat)
    ensures |file| > MAX_FILE_TRANSFER_BYTES ==> result == TooLarge && attempts == 0
    ensures |file| <= MAX_FILE_TRANSFER_BYTES ==>
      var end := Run(NewSend(dest, t, name, file), script, 0, steps);
      end.phase.Finished? && end.phase.result == result && end.attempts == attempts
    ensures attempts <= META_RETRIES + CHUNK_RETRIES * ChunkCount(|file|)
  {
    if |file| > MAX_FILE_TRANSFER_BYTES {
      return TooLarge, 0, 0;
    }
    ghost var first := NewSend(dest, t, name, file);
    ghost var trying := Step(first, script(0));
    assert trying == Run(first, script, 0, 1);
    var reply, used, cursor;
    ghost var after;
    reply, used, cursor, after := SendPacketWithAck(trying, Metadata, script, 1);
    RunAppend(first, script, 0, 1, cursor);
    if reply == Rejected {
      return Declined, used, cursor;
    }
    if reply != Acked {
      return Failed, used, cursor;
    }
    var more, end;
    result, more, end := SendChunks(after, |file|, script, cursor);
    RunAppend(first, script, 0, cursor, end);
    attempts, steps := used + more, end;
  }

  lemma {:induction false} RunAppend(s: Send, script: nat -> Event, lo: nat, mid: nat, hi: nat)
    requires lo <= mid <= hi
    ensures Run(Run(s, script, lo, mid), script, mid, hi) == Run(s, script, lo, hi)
    decreases hi
  {
    if mid < hi {
      RunAppend(s, script, lo, mid, hi - 1);
    }
  }
}
