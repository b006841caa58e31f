/** Screen sharing: one picture cut into numbered chunks, and the table that puts pictures together again. */
module ScreenFrames {
  import opened Wrappers
  import opened Bytes
  import opened Datagrams

  const SCREEN_CHUNK_PAYLOAD: nat := 1100
  const MAX_SCREEN_CHUNKS: nat := 512
  const MAX_SCREEN_BYTES: nat := 8 * 1024 * 1024
  const SCREEN_HEADER_BYTES: nat := 10
  const EXPIRY_MS: int := 5000

  // ---------------------------------------------------------------- sending

  datatype SentFrame = SentFrame(frameId: nat, jpeg: seq<byte>)

  function ChunkCount(size: nat): nat {
    (size + SCREEN_CHUNK_PAYLOAD - 1) / SCREEN_CHUNK_PAYLOAD
  }

  /** What the sender lets out: no empty picture and none of more than 512 chunks. */
  predicate Sendable(f: SentFrame) {
    f.frameId < TWO16 && 1 <= ChunkCount(|f.jpeg|) <= MAX_SCREEN_CHUNKS
  }

  function Start(f: SentFrame, i: nat): (s: nat)
    ensures s <= |f.jpeg|
  {
    if SCREEN_CHUNK_PAYLOAD * i < |f.jpeg| then SCREEN_CHUNK_PAYLOAD * i else |f.jpeg|
  }

  function ChunkOf(f: SentFrame, i: nat): seq<byte> {
    f.jpeg[Start(f, i)..Start(f, i + 1)]
  }

  function ChunkBody(f: SentFrame, i: nat): seq<byte>
    requires Sendable(f) && i < ChunkCount(|f.jpeg|)
  {
    BE16(f.frameId) + BE16(i) + BE16(ChunkCount(|f.jpeg|)) + BE32(|f.jpeg|) + ChunkOf(f, i)
  }

  method SendScreenFrame(f: SentFrame) returns (packets: seq<seq<byte>>)
    requires f.frameId < TWO16
    ensures if Sendable(f) then
              && |packets| == ChunkCount(|f.jpeg|)
              && forall i :: 0 <= i < |packets| ==> packets[i] == [PACKET_SCREEN] + ChunkBody(f, i)
            else packets == []
  {
    packets := [];
    var chunkCount := ChunkCount(|f.jpeg|);
    if |f.jpeg| == 0 || chunkCount == 0 || chunkCount > MAX_SCREEN_CHUNKS {
      return;
    }
    for i := 0 to chunkCount
      invariant |packets| == i
      invariant forall k :: 0 <= k < i ==> packets[k] == [PACKET_SCREEN] + ChunkBody(f, k)
    {
      var offset := i * SCREEN_CHUNK_PAYLOAD;
      var remaining := |f.jpeg| - offset;
      var chunkSize := if SCREEN_CHUNK_PAYLOAD < remaining then SCREEN_CHUNK_PAYLOAD else remaining;
      packets := packets + [[PACKET_SCREEN] + BE16(f.frameId) + BE16(i) + BE16(chunkCount) + BE32(|f.jpeg|)
                            + f.jpeg[offset..offset + chunkSize]];
    }
  }

  /** No screen packet is taken for STUN: its chunk count would have to be 4772. */
  lemma ScreenPacketIsNotStun(f: SentFrame, i: nat)
    requires Sendable(f) && i < ChunkCount(|f.jpeg|)
    ensures Classify([PACKET_SCREEN] + ChunkBody(f, i)) == Datagram.Screen(ChunkBody(f, i))
  {
    var data := [PACKET_SCREEN] + ChunkBody(f, i);
    assert data[1..] == ChunkBody(f, i);
    var count := ChunkCount(|f.jpeg|);
    assert data[5] == BE16(count)[0] == count / 256 && data[6] == BE16(count)[1];
    if |data| >= 20 {
      var word := data[4..8];
      assert word[1] == data[5] && word[2] == data[6];
      assert Read32(word) == (word[0] as int * 256 + word[1]) * TWO16 + (word[2] as int * 256 + word[3]);
    }
  }

  // ---------------------------------------------------------------- receiving

  datatype Assembly = Assembly(
    frameId: nat, chunkCount: nat, totalSize: nat, chunks: seq<seq<byte>>, received: seq<bool>,
    receivedCount: nat, lastUpdate: int)

  datatype Chunk = Chunk(frameId: nat, index: nat, count: nat, totalSize: nat, payload: seq<byte>)

  /** The header checks; None is a packet that is dropped. */
  function ReadChunk(body: seq<byte>): Option<Chunk> {
    if |body| <= SCREEN_HEADER_BYTES then None
    else
      var c := Chunk(Read16(body[0..2]), Read16(body[2..4]), Read16(body[4..6]), Read32(body[6..10]), body[10..]);
      if c.count == 0 || c.count > MAX_SCREEN_CHUNKS || c.index >= c.count || c.totalSize == 0
        || c.totalSize > MAX_SCREEN_BYTES then None
      else Some(c)
  }

  function Expire(table: map<string, Assembly>, now: int): map<string, Assembly> {
    map p | p in table && now - table[p].lastUpdate <= EXPIRY_MS :: table[p]
  }

  function NewAssembly(c: Chunk, now: int): Assembly {
    Assembly(c.frameId, c.count, c.totalSize, seq(c.count, i => []), seq(c.count, i => false), 0, now)
  }

  predicate SamePicture(a: Assembly, c: Chunk) {
    a.frameId == c.frameId && a.chunkCount == c.count && a.totalSize == c.totalSize
  }

  /** The assembly the chunk belongs to: the stored one if all three header fields agree, else a new one. */
  function Opened(table: map<string, Assembly>, peer: string, c: Chunk, now: int): Assembly {
    if peer in table && SamePicture(table[peer], c) then table[peer].(lastUpdate := now) else NewAssembly(c, now)
  }

  function Stored(a: Assembly, c: Chunk): Assembly {
    if c.index < |a.received| && c.index < |a.chunks| && !a.received[c.index] then
      a.(chunks := a.chunks[c.index := c.payload], received := a.received[c.index := true],
         receivedCount := a.receivedCount + 1)
    else a
  }

  function Concat(chunks: seq<seq<byte>>): seq<byte> {
    if chunks == [] then [] else Concat(chunks[..|chunks| - 1]) + chunks[|chunks| - 1]
  }

  function Joined(a: Assembly): seq<byte> {
    var all := Concat(a.chunks);
    if |all| > a.totalSize then all[..a.totalSize] else all
  }

  /** The table afterwards, and the picture if this chunk completed one. */
  function Handle(table: map<string, Assembly>, peer: string, body: seq<byte>, now: int)
    : (map<string, Assembly>, Option<seq<byte>>)
  {
    match ReadChunk(body)
    case None => (table, None)
    case Some(c) =>
      var live := Expire(table, now);
      var a := Stored(Opened(live, peer, c, now), c);
      if a.receivedCount == a.chunkCount then
        (live - {peer}, if Joined(a) == [] then None else Some(Joined(a)))
      else (live[peer := a], None)
  }

  class ScreenReceiver {
    var screenRxBuffers: map<string, Assembly>

    constructor ()
      ensures screenRxBuffers == map[]
    {
      screenRxBuffers := map[];
    }

    method EraseExpired(now: int)
      modifies this
      ensures screenRxBuffers == Expire(old(screenRxBuffers), now)
    {
      var todo := screenRxBuffers.Keys;
      while todo != {}
        invariant todo <= screenRxBuffers.Keys <= old(screenRxBuffers).Keys
        invariant forall p :: p in screenRxBuffers ==> screenRxBuffers[p] == old(screenRxBuffers)[p]
        invariant forall p :: p in old(screenRxBuffers) && p !in todo ==>
                    (p in screenRxBuffers <==> now - old(screenRxBuffers)[p].lastUpdate <= EXPIRY_MS)
        decreases |todo|
      {
        var p :| p in todo;
        todo := todo - {p};
        if now - screenRxBuffers[p].lastUpdate > EXPIRY_MS {
          screenRxBuffers := screenRxBuffers - {p};
        }
      }
    }

    method JoinChunks(a: Assembly) returns (jpeg: seq<byte>)
      ensures jpeg == Joined(a)
    {
      jpeg := [];
      for i := 0 to |a.chunks|
        invariant jpeg == Concat(a.chunks[..i])
      {
        assert a.chunks[..i + 1][..i] == a.chunks[..i];
        jpeg := jpeg + a.chunks[i];
      }
      assert a.chunks[..|a.chunks|] == a.chunks;
      if |jpeg| > a.totalSize {
        jpeg := jpeg[..a.totalSize];
      }
    }

    method HandleIncomingScreenChunk(peer: string, body: seq<byte>, now: int) returns (completed: Option<seq<byte>>)
      modifies this
      ensures (screenRxBuffers, completed) == Handle(old(screenRxBuffers), peer, body, now)
    {
      hide ReadChunk, Joined;
      var chunk := ReadChunk(body);
      if chunk.None? {
        return None;
      }
      var c := chunk.value;
      EraseExpired(now);
      var assembly := if peer in screenRxBuffers then screenRxBuffers[peer] else Assembly(0, 0, 0, [], [], 0, now);
      if assembly.frameId != c.frameId || assembly.chunkCount != c.count || assembly.totalSize != c.totalSize {
        assembly := NewAssembly(c, now);
      }
      assembly := assembly.(lastUpdate := now);
      if c.index < |assembly.received| && c.index < |assembly.chunks| && !assembly.received[c.index] {
        assembly := assembly.(chunks := assembly.chunks[c.index := c.payload],
                              received := assembly.received[c.index := true],
                              receivedCount := assembly.receivedCount + 1);
      }
      screenRxBuffers := screenRxBuffers[peer := assembly];
      if assembly.receivedCount == assembly.chunkCount {
        var jpeg := JoinChunks(assembly);
        assert screenRxBuffers - {peer} == Expire(old(screenRxBuffers), now) - {peer};
        screenRxBuffers := screenRxBuffers - {peer};
        if jpeg != [] {
          return Some(jpeg);
        }
      }
      return None;
    }
  }
}
