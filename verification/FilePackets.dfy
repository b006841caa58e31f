/** The file-transfer packets, their packed wire form, and the keys both sides index by. */
module FilePackets {
  import opened Wrappers
  import opened Bytes
  import opened Datagrams
  import Decimal

  const FILE_CHUNK_PAYLOAD: nat := 1024
  const FILE_PACKET_META: byte := 0x01
  const FILE_PACKET_DATA: byte := 0x02
  const FILE_PACKET_ACK: byte := 0x03
  const FILE_PACKET_REJECT: byte := 0x04
  const FILE_META_CHUNK_INDEX: nat := 0xFFFF_FFFF
  const MAX_FILE_TRANSFER_BYTES: nat := 128 * 1024 * 1024
  const MAX_FILE_NAME_BYTES: nat := 240

  const META_HEADER_BYTES: nat := 19
  const CHUNK_HEADER_BYTES: nat := 9
  const ACK_HEADER_BYTES: nat := 9
  const REJECT_HEADER_BYTES: nat := 5

  datatype Packet =
    | Meta(transferId: nat, chunkCount: nat, totalSize: nat, fileName: seq<byte>)
    | Data(transferId: nat, chunkIndex: nat, payload: seq<byte>)
    | Ack(transferId: nat, chunkIndex: nat)
    | Reject(transferId: nat)

  /** The field widths of the packed headers. */
  predicate Fits(p: Packet) {
    && p.transferId < TWO32
    && match p
       case Meta(_, n, size, name) => n < TWO32 && size < TWO64 && |name| < TWO16
       case Data(_, k, _) => k < TWO32
       case Ack(_, k) => k < TWO32
       case Reject(_) => true
  }

  /** Metadata the receiving side drops without answering. */
  predicate Acceptable(p: Packet) {
    p.Meta? ==>
      p.chunkCount != 0 && |p.fileName| <= MAX_FILE_NAME_BYTES && p.totalSize <= MAX_FILE_TRANSFER_BYTES
  }

  /** The packet body behind the PACKET_FILE byte. */
  function Body(p: Packet): seq<byte>
    requires Fits(p)
  {
    match p
    case Meta(t, n, size, name) =>
      [FILE_PACKET_META] + BE32(t) + BE32(n) + Memory64(HostToNetwork64(size)) + BE16(|name|) + name
    case Data(t, k, payload) => [FILE_PACKET_DATA] + BE32(t) + BE32(k) + payload
    case Ack(t, k) => [FILE_PACKET_ACK] + BE32(t) + BE32(k)
    case Reject(t) => [FILE_PACKET_REJECT] + BE32(t)
  }

  function Encode(p: Packet): seq<byte>
    requires Fits(p)
  {
    [PACKET_FILE] + Body(p)
  }

  /** What the handler makes of a packet body; None is a packet it drops. */
  function Decode(b: seq<byte>): Option<Packet> {
    if |b| == 0 then None
    else if b[0] == FILE_PACKET_ACK then
      if |b| < ACK_HEADER_BYTES then None else Some(Ack(Read32(b[1..5]), Read32(b[5..9])))
    else if b[0] == FILE_PACKET_REJECT then
      if |b| < REJECT_HEADER_BYTES then None else Some(Reject(Read32(b[1..5])))
    else if b[0] == FILE_PACKET_META then
      if |b| < META_HEADER_BYTES then None
      else
        var nameLen := Read16(b[17..19]);
        if |b| < META_HEADER_BYTES + nameLen then None
        else
          var p := Meta(Read32(b[1..5]), Read32(b[5..9]), NetworkToHost64(Load64(b[9..17])),
                        b[19..19 + nameLen]);
          if Acceptable(p) then Some(p) else None
    else if b[0] == FILE_PACKET_DATA then
      if |b| < CHUNK_HEADER_BYTES then None
      else Some(Data(Read32(b[1..5]), Read32(b[5..9]), b[9..]))
    else None
  }

  lemma MetaLayout(kind: byte, t: seq<byte>, n: seq<byte>, size: seq<byte>, len: seq<byte>, name: seq<byte>)
    requires |t| == 4 && |n| == 4 && |size| == 8 && |len| == 2
    ensures
      var b := [kind] + t + n + size + len + name;
      && |b| == META_HEADER_BYTES + |name|
      && b[0] == kind && b[1..5] == t && b[5..9] == n && b[9..17] == size && b[17..19] == len
      && b[19..19 + |name|] == name
  {
  }

  lemma DecodeMeta(t: nat, n: nat, size: nat, name: seq<byte>)
    requires Fits(Meta(t, n, size, name))
    ensures Decode(Body(Meta(t, n, size, name))) ==
            if Acceptable(Meta(t, n, size, name)) then Some(Meta(t, n, size, name)) else None
  {
    MetaLayout(FILE_PACKET_META, BE32(t), BE32(n), Memory64(HostToNetwork64(size)), BE16(|name|), name);
    ReadBack32(t);
    ReadBack32(n);
    ReadBack16(|name|);
    LoadMemory64(HostToNetwork64(size));
    NetworkOrder64(size);
  }

  /** Decoding undoes encoding, except for metadata that breaks the receiver's limits. */
  lemma DecodeBody(p: Packet)
    requires Fits(p)
    ensures Decode(Body(p)) == if Acceptable(p) then Some(p) else None
  {
    var b := Body(p);
    ReadBack32(p.transferId);
    match p
    case Meta(t, n, size, name) =>
      DecodeMeta(t, n, size, name);
    case Data(t, k, payload) =>
      assert b[1..5] == BE32(t) && b[5..9] == BE32(k) && b[9..] == payload;
      ReadBack32(k);
    case Ack(t, k) =>
      assert b[1..5] == BE32(t) && b[5..9] == BE32(k);
      ReadBack32(k);
    case Reject(t) =>
      assert b[1..5] == BE32(t);
  }

  /** Everything the decoder lets through fits the header fields and obeys the limits. */
  lemma DecodeFits(b: seq<byte>)
    requires Decode(b).Some?
    ensures Fits(Decode(b).value) && Acceptable(Decode(b).value)
  {
  }

  /** The chunk counts a sender within the size limit can produce. */
  predicate WithinSenderLimits(p: Packet) {
    match p
    case Meta(_, n, _, _) => n <= MAX_FILE_TRANSFER_BYTES / FILE_CHUNK_PAYLOAD
    case Data(_, k, _) => k < MAX_FILE_TRANSFER_BYTES / FILE_CHUNK_PAYLOAD
    case _ => true
  }

  /** The word of a metadata or data packet behind its transfer id. */
  function IndexOrCount(p: Packet): nat
    requires p.Meta? || p.Data?
  {
    if p.Meta? then p.chunkCount else p.chunkIndex
  }

  lemma BytesFourToEight(p: Packet)
    requires Fits(p) && (p.Meta? || p.Data?)
    ensures var data := Encode(p);
      |data| >= 10 && data[4..8] == BE16(p.transferId % TWO16) + BE16(IndexOrCount(p) / TWO16)
  {
    var t, k := BE32(p.transferId), BE32(IndexOrCount(p));
    assert t[2..] == BE16(p.transferId % TWO16) && k[..2] == BE16(IndexOrCount(p) / TWO16);
    HeadOfPacket(p);
    MiddleOf(Encode(p), t, k);
  }

  lemma HeadOfPacket(p: Packet)
    requires Fits(p) && (p.Meta? || p.Data?)
    ensures var data := Encode(p);
      |data| >= 10 && data[2..6] == BE32(p.transferId) && data[6..10] == BE32(IndexOrCount(p))
  {
    hide BE16, BE32, Memory64, HostToNetwork64;
  }

  lemma MiddleOf(data: seq<byte>, t: seq<byte>, k: seq<byte>)
    requires |data| >= 10 && data[2..6] == t && data[6..10] == k
    ensures data[4..8] == t[2..] + k[..2]
  {
  }

  /**
   * A file packet is mistaken for STUN exactly when it is metadata or data of at least 20 bytes whose transfer id
   * ends in 0x2112 and whose chunk count or index begins with 0xA442.
   */
  lemma LooksLikeStunIff(p: Packet)
    requires Fits(p)
    ensures LooksLikeStun(Encode(p)) <==>
      && (p.Meta? || p.Data?) && |Encode(p)| >= 20
      && p.transferId % TWO16 == 0x2112 && IndexOrCount(p) / TWO16 == 0xA442
  {
    if p.Meta? || p.Data? {
      BytesFourToEight(p);
      var low, high := p.transferId % TWO16, IndexOrCount(p) / TWO16;
      var word := BE16(low) + BE16(high);
      assert word[..2] == BE16(low) && word[2..] == BE16(high);
      ReadBack16(low);
      ReadBack16(high);
      assert MAGIC_COOKIE == 0x2112 * TWO16 + 0xA442;
    }
  }

  /** No file packet within the sender's limits is mistaken for STUN, whatever its transfer id and payload. */
  lemma FilePacketIsNotStun(p: Packet)
    requires Fits(p) && WithinSenderLimits(p)
    ensures Classify(Encode(p)) == File(Body(p))
  {
    LooksLikeStunIff(p);
    assert Encode(p)[1..] == Body(p);
  }

  /** The bound is needed: a forged chunk index makes a data packet read as STUN. */
  lemma ForgedIndexLooksLikeStun()
    ensures
      var p := Data(0x2112, 0xA442_0000, seq(10, i => 0));
      Fits(p) && Classify(Encode(p)) == Stun(Encode(p))
  {
    LooksLikeStunIff(Data(0x2112, 0xA442_0000, seq(10, i => 0)));
  }

  function MakeIncomingFileKey(peerId: string, transferId: nat): string {
    peerId + "#" + Decimal.ToText(transferId)
  }

  function MakeFileAckKey(transferId: nat, chunkIndex: nat): nat {
    transferId * TWO32 + chunkIndex
  }

  lemma IncomingFileKeyInjective(p: string, t: nat, q: string, u: nat)
    requires MakeIncomingFileKey(p, t) == MakeIncomingFileKey(q, u)
    ensures p == q && t == u
  {
    Decimal.SplitFromRight(p, t, q, u, '#');
  }

  lemma FileAckKeyInjective(t: nat, k: nat, u: nat, l: nat)
    requires k < TWO32 && l < TWO32
    requires MakeFileAckKey(t, k) == MakeFileAckKey(u, l)
    ensures t == u && k == l
  {
  }

  /** The number of chunks `SendFileWorker` announces; an empty file still takes one. */
  function ChunkCount(fileSize: nat): (n: nat)
    ensures n >= 1
    ensures FILE_CHUNK_PAYLOAD * n >= fileSize
    ensures FILE_CHUNK_PAYLOAD * (n - 1) < fileSize || n == 1
  {
    var n := (fileSize + FILE_CHUNK_PAYLOAD - 1) / FILE_CHUNK_PAYLOAD;
    if n < 1 then 1 else n
  }

  function Min(a: int, b: int): int {
    if a < b then a else b
  }

  /** How many bytes chunk `index` of a file of `totalSize` bytes carries. */
  function ChunkSize(totalSize: nat, index: nat): (n: nat)
    ensures n <= FILE_CHUNK_PAYLOAD
    ensures Min(totalSize, FILE_CHUNK_PAYLOAD * index) + n == Min(totalSize, FILE_CHUNK_PAYLOAD * (index + 1))
  {
    var remaining := if totalSize > index * FILE_CHUNK_PAYLOAD then totalSize - index * FILE_CHUNK_PAYLOAD else 0;
    Min(FILE_CHUNK_PAYLOAD, remaining)
  }

  /** The first `count` chunks of a file. */
  function Prefix<T>(file: seq<T>, count: nat): seq<T> {
    file[..Min(|file|, FILE_CHUNK_PAYLOAD * count)]
  }

  function ChunkOf<T>(file: seq<T>, index: nat): seq<T> {
    var start := Min(|file|, FILE_CHUNK_PAYLOAD * index);
    file[start..start + ChunkSize(|file|, index)]
  }

  /** Appending chunk after chunk rebuilds the file, and the announced count covers all of it. */
  lemma ChunksRebuildFile<T>(file: seq<T>, index: nat)
    ensures Prefix(file, index) + ChunkOf(file, index) == Prefix(file, index + 1)
    ensures Prefix(file, ChunkCount(|file|)) == file
    ensures |ChunkOf(file, index)| == ChunkSize(|file|, index)
  {
  }
}
