/** Over every run of the receiver: pictures are never mixed, and a picture whose chunks all arrive is shown. */
module ScreenRuns {
  import opened Wrappers
  import opened Bytes
  import opened ScreenFrames

  datatype Delivery = Delivery(peer: string, body: seq<byte>, now: int)

  /** The table after a run, and what was completed for whom along the way. */
  datatype Outcome = Outcome(table: map<string, Assembly>, shown: seq<(string, seq<byte>)>)

  function Receive(o: Outcome, d: Delivery): Outcome {
    var (table, completed) := Handle(o.table, d.peer, d.body, d.now);
    Outcome(table, if completed.Some? then o.shown + [(d.peer, completed.value)] else o.shown)
  }

  function Run(o: Outcome, ds: seq<Delivery>): Outcome {
    if ds == [] then o else Receive(Run(o, ds[..|ds| - 1]), ds[|ds| - 1])
  }

  const NOTHING := Outcome(map[], [])

  // ---------------------------------------------------------------- what one chunk carries

  function HeaderOf(f: SentFrame): (nat, nat, nat) {
    (f.frameId, ChunkCount(|f.jpeg|), |f.jpeg|)
  }

  function ChunkFor(f: SentFrame, i: nat): Chunk {
    Chunk(f.frameId, i, ChunkCount(|f.jpeg|), |f.jpeg|, ChunkOf(f, i))
  }

  /** Reading undoes building, for every chunk a sender can send. */
  lemma ReadChunkBody(f: SentFrame, i: nat)
    requires Sendable(f) && i < ChunkCount(|f.jpeg|)
    ensures ReadChunk(ChunkBody(f, i)) == Some(ChunkFor(f, i))
  {
  }

  function Chunks(f: SentFrame, n: nat): seq<seq<byte>> {
    seq(n, i requires i >= 0 => ChunkOf(f, i))
  }

  lemma {:induction false} ChunksJoin(f: SentFrame, n: nat)
    ensures Concat(Chunks(f, n)) == f.jpeg[..Start(f, n)]
  {
    if n > 0 {
      ChunksJoin(f, n - 1);
      assert Chunks(f, n)[..n - 1] == Chunks(f, n - 1);
      assert Start(f, n - 1) <= Start(f, n);
    }
  }

  // ---------------------------------------------------------------- what can be shown

  ghost predicate AllSendable(sent: set<SentFrame>) {
    forall f :: f in sent ==> Sendable(f)
  }

  ghost predicate IsChunkOf(body: seq<byte>, f: SentFrame) {
    Sendable(f) && exists i :: 0 <= i < ChunkCount(|f.jpeg|) && body == ChunkBody(f, i)
  }

  /** For each chunk of `f`, one sent frame with the header of `f`. */
  ghost predicate Choice(cs: seq<SentFrame>, f: SentFrame, sent: set<SentFrame>) {
    && |cs| == ChunkCount(|f.jpeg|)
    && forall i :: 0 <= i < |cs| ==> cs[i] in sent && HeaderOf(cs[i]) == HeaderOf(f)
  }

  /** Each chunk from the frame chosen for it. */
  function Spliced(cs: seq<SentFrame>): seq<seq<byte>> {
    seq(|cs|, i requires 0 <= i < |cs| => ChunkOf(cs[i], i))
  }

  ghost predicate IsSent(jpeg: seq<byte>, sent: set<SentFrame>) {
    exists g :: g in sent && g.jpeg == jpeg
  }

  /** Whatever chunks of frames with one header are put together, the result is a frame that was sent. */
  ghost predicate SplicesAreSent(sent: set<SentFrame>) {
    forall f, cs :: f in sent && Choice(cs, f, sent) ==> IsSent(Concat(Spliced(cs)), sent)
  }

  /** The frames can be told apart by their headers. */
  ghost predicate Unambiguous(sent: set<SentFrame>) {
    forall f, g :: f in sent && g in sent && HeaderOf(f) == HeaderOf(g) ==> f.jpeg == g.jpeg
  }

  lemma {:induction false} ConcatLength(chunks: seq<seq<byte>>, f: SentFrame)
    requires forall i :: 0 <= i < |chunks| ==> |chunks[i]| == |ChunkOf(f, i)|
    ensures |Concat(chunks)| == Start(f, |chunks|)
  {
    if chunks != [] {
      ConcatLength(chunks[..|chunks| - 1], f);
      assert Start(f, |chunks| - 1) <= Start(f, |chunks|);
    }
  }

  lemma SpliceLength(cs: seq<SentFrame>, f: SentFrame, sent: set<SentFrame>)
    requires Choice(cs, f, sent)
    ensures |Concat(Spliced(cs))| == |f.jpeg|
  {
    ConcatLength(Spliced(cs), f);
  }

  lemma UnambiguousSplice(cs: seq<SentFrame>, f: SentFrame, sent: set<SentFrame>)
    requires Unambiguous(sent) && f in sent && Choice(cs, f, sent)
    ensures Concat(Spliced(cs)) == f.jpeg
  {
    assert Spliced(cs) == Chunks(f, |cs|);
    ChunksJoin(f, |cs|);
    assert f.jpeg[..|f.jpeg|] == f.jpeg;
  }

  lemma UnambiguousSplicesAreSent(sent: set<SentFrame>)
    requires Unambiguous(sent)
    ensures SplicesAreSent(sent)
  {
    forall f, cs | f in sent && Choice(cs, f, sent) ensures IsSent(Concat(Spliced(cs)), sent) {
      UnambiguousSplice(cs, f, sent);
    }
  }

  function CountReceived(received: seq<bool>): (n: nat)
    ensures n <= |received|
  {
    if received == [] then 0
    else CountReceived(received[..|received| - 1]) + if received[|received| - 1] then 1 else 0
  }

  lemma {:induction false} CountMarked(received: seq<bool>, i: nat)
    requires i < |received| && !received[i]
    ensures CountReceived(received[i := true]) == CountReceived(received) + 1
  {
    var last := |received| - 1;
    if i < last {
      CountMarked(received[..last], i);
      assert received[i := true][..last] == received[..last][i := true];
    } else {
      assert received[i := true][..last] == received[..last];
    }
  }

  lemma {:induction false} CountFull(received: seq<bool>)
    ensures CountReceived(received) == |received| <==> forall i :: 0 <= i < |received| ==> received[i]
  {
    if received != [] {
      CountFull(received[..|received| - 1]);
    }
  }

  lemma {:induction false} CountNone(n: nat)
    ensures CountReceived(seq(n, i => false)) == 0
  {
    var s: seq<bool> := seq(n, i => false);
    if n > 0 {
      CountNone(n - 1);
      var shorter: seq<bool> := seq(n - 1, i => false);
      assert s[..n - 1] == shorter;
    }
  }

  /** An assembly under the header of `f`; each chunk that arrived is that chunk of some sent frame with this header. */
  ghost predicate MadeOf(a: Assembly, f: SentFrame, sent: set<SentFrame>) {
    && (a.frameId, a.chunkCount, a.totalSize) == HeaderOf(f)
    && |a.chunks| == a.chunkCount == |a.received|
    && a.receivedCount == CountReceived(a.received)
    && (forall i :: 0 <= i < a.chunkCount && a.received[i] ==> HasDonor(a.chunks[i], i, f, sent))
  }

  ghost predicate HasDonor(chunk: seq<byte>, i: nat, f: SentFrame, sent: set<SentFrame>) {
    exists g :: g in sent && HeaderOf(g) == HeaderOf(f) && chunk == ChunkOf(g, i)
  }

  ghost function Donor(chunk: seq<byte>, i: nat, f: SentFrame, sent: set<SentFrame>): (g: SentFrame)
    requires HasDonor(chunk, i, f, sent)
    ensures g in sent && HeaderOf(g) == HeaderOf(f) && chunk == ChunkOf(g, i)
  {
    var g :| g in sent && HeaderOf(g) == HeaderOf(f) && chunk == ChunkOf(g, i);
    g
  }

  ghost predicate PeerInv(table: map<string, Assembly>, peer: string, sent: set<SentFrame>) {
    peer in table ==>
      && table[peer].receivedCount < table[peer].chunkCount
      && exists f :: f in sent && MadeOf(table[peer], f, sent)
  }

  lemma OpenedIsMade(table: map<string, Assembly>, peer: string, sent: set<SentFrame>, f: SentFrame, i: nat, now: int)
    requires f in sent && PeerInv(table, peer, sent)
    ensures MadeOf(Opened(table, peer, ChunkFor(f, i), now), f, sent)
  {
    var c := ChunkFor(f, i);
    if peer in table && SamePicture(table[peer], c) {
      var g :| g in sent && MadeOf(table[peer], g, sent);
      assert HeaderOf(f) == HeaderOf(g);
    } else {
      CountNone(c.count);
    }
  }

  lemma StoredIsMade(a: Assembly, f: SentFrame, i: nat, sent: set<SentFrame>)
    requires f in sent && MadeOf(a, f, sent) && i < a.chunkCount
    ensures MadeOf(Stored(a, ChunkFor(f, i)), f, sent)
    ensures Stored(a, ChunkFor(f, i)).received == a.received[i := true]
  {
    if !a.received[i] {
      CountMarked(a.received, i);
      assert HasDonor(ChunkOf(f, i), i, f, sent);
    } else {
      assert a.received[i := true] == a.received;
    }
  }

  /** A full assembly is a splice of frames that were sent. */
  lemma FullIsSplice(a: Assembly, f: SentFrame, sent: set<SentFrame>)
    requires MadeOf(a, f, sent) && a.receivedCount == a.chunkCount
    ensures exists cs :: Choice(cs, f, sent) && Joined(a) == Concat(Spliced(cs))
  {
    CountFull(a.received);
    var n := a.chunkCount;
    var cs := seq(n, i requires 0 <= i < n && HasDonor(a.chunks[i], i, f, sent) => Donor(a.chunks[i], i, f, sent));
    assert Choice(cs, f, sent);
    assert a.chunks == Spliced(cs);
    SpliceLength(cs, f, sent);
  }

  lemma ExpireKeepsInv(table: map<string, Assembly>, peer: string, sent: set<SentFrame>, now: int)
    requires PeerInv(table, peer, sent)
    ensures PeerInv(Expire(table, now), peer, sent)
  {
  }

  lemma OwnChunk(table: map<string, Assembly>, peer: string, sent: set<SentFrame>, f: SentFrame, i: nat, now: int)
    requires f in sent && Sendable(f) && i < ChunkCount(|f.jpeg|) && PeerInv(table, peer, sent)
    ensures var (after, completed) := Handle(table, peer, ChunkBody(f, i), now);
      && PeerInv(after, peer, sent)
      && (completed.Some? ==> exists cs :: Choice(cs, f, sent) && completed.value == Concat(Spliced(cs)))
      && (completed.None? ==>
            && peer in after && MadeOf(after[peer], f, sent) && after[peer].lastUpdate == now && after[peer].received[i]
            && (peer in table && MadeOf(table[peer], f, sent) && now - table[peer].lastUpdate <= EXPIRY_MS ==>
                  after[peer].received == table[peer].received[i := true]))
  {
    ReadChunkBody(f, i);
    ExpireKeepsInv(table, peer, sent, now);
    var open := Opened(Expire(table, now), peer, ChunkFor(f, i), now);
    OpenedIsMade(Expire(table, now), peer, sent, f, i, now);
    StoredIsMade(open, f, i, sent);
    var a := Stored(open, ChunkFor(f, i));
    if a.receivedCount == a.chunkCount {
      FullIsSplice(a, f, sent);
      var cs :| Choice(cs, f, sent) && Joined(a) == Concat(Spliced(cs));
      SpliceLength(cs, f, sent);
    }
  }

  lemma OthersChunk(
      table: map<string, Assembly>, peer: string, other: string, sent: set<SentFrame>, body: seq<byte>, now: int)
    requires PeerInv(table, peer, sent) && other != peer
    ensures PeerInv(Handle(table, other, body, now).0, peer, sent)
    ensures var after := Handle(table, other, body, now).0;
      peer in table && now - table[peer].lastUpdate <= EXPIRY_MS ==> peer in after && after[peer] == table[peer]
  {
  }

  // ---------------------------------------------------------------- never mixed

  ghost predicate OnlySent(shown: seq<(string, seq<byte>)>, peer: string, sent: set<SentFrame>) {
    forall k :: 0 <= k < |shown| && shown[k].0 == peer ==> IsSent(shown[k].1, sent)
  }

  /** What comes from `peer` is a chunk of a frame it sent; the others may send anything. */
  ghost predicate HonestOne(d: Delivery, peer: string, sent: set<SentFrame>) {
    d.peer == peer ==> exists f :: f in sent && IsChunkOf(d.body, f)
  }

  ghost predicate Honest(ds: seq<Delivery>, peer: string, sent: set<SentFrame>) {
    forall k :: 0 <= k < |ds| ==> HonestOne(ds[k], peer, sent)
  }

  lemma OneMore(o: Outcome, d: Delivery, peer: string, sent: set<SentFrame>)
    requires SplicesAreSent(sent) && PeerInv(o.table, peer, sent) && OnlySent(o.shown, peer, sent)
    requires HonestOne(d, peer, sent)
    ensures PeerInv(Receive(o, d).table, peer, sent) && OnlySent(Receive(o, d).shown, peer, sent)
  {
    hide PeerInv, OnlySent, Handle, Choice, Spliced;
    var (table, completed) := Handle(o.table, d.peer, d.body, d.now);
    if d.peer == peer {
      var f :| f in sent && IsChunkOf(d.body, f);
      var i :| 0 <= i < ChunkCount(|f.jpeg|) && d.body == ChunkBody(f, i);
      OwnChunk(o.table, peer, sent, f, i, d.now);
    } else {
      OthersChunk(o.table, peer, d.peer, sent, d.body, d.now);
    }
    if completed.Some? {
      OneShownMore(o.shown, (d.peer, completed.value), peer, sent);
    }
  }

  lemma OneShownMore(
      shown: seq<(string, seq<byte>)>, entry: (string, seq<byte>), peer: string, sent: set<SentFrame>)
    requires OnlySent(shown, peer, sent)
    requires entry.0 == peer ==> IsSent(entry.1, sent)
    ensures OnlySent(shown + [entry], peer, sent)
  {
  }

  lemma {:induction false} HonestRunShowsSent(ds: seq<Delivery>, peer: string, sent: set<SentFrame>)
    requires SplicesAreSent(sent) && Honest(ds, peer, sent)
    ensures PeerInv(Run(NOTHING, ds).table, peer, sent)
    ensures OnlySent(Run(NOTHING, ds).shown, peer, sent)
  {
    if ds != [] {
      HonestRunShowsSent(ds[..|ds| - 1], peer, sent);
      OneMore(Run(NOTHING, ds[..|ds| - 1]), ds[|ds| - 1], peer, sent);
    }
  }

  /** The chosen chunks, one after the other. */
  ghost function SpliceRun(cs: seq<SentFrame>, f: SentFrame, sent: set<SentFrame>, peer: string): seq<Delivery>
    requires AllSendable(sent) && Choice(cs, f, sent)
  {
    seq(|cs|, i requires 0 <= i < |cs| => Delivery(peer, ChunkBody(cs[i], i), 0))
  }

  /** The assembly after the first `k` of them. */
  function SplicePart(cs: seq<SentFrame>, f: SentFrame, k: nat): Assembly {
    Assembly(f.frameId, |cs|, |f.jpeg|, seq(|cs|, i requires 0 <= i < |cs| => if i < k then ChunkOf(cs[i], i) else []),
             seq(|cs|, i => i < k), k, 0)
  }

  function SpliceTable(cs: seq<SentFrame>, f: SentFrame, k: nat, peer: string): map<string, Assembly> {
    if k == 0 then map[] else map[peer := SplicePart(cs, f, k)]
  }

  lemma SpliceStored(cs: seq<SentFrame>, f: SentFrame, sent: set<SentFrame>, k: nat, peer: string)
    requires Choice(cs, f, sent) && k < |cs|
    ensures var c := ChunkFor(cs[k], k);
      Stored(Opened(SpliceTable(cs, f, k, peer), peer, c, 0), c) == SplicePart(cs, f, k + 1)
  {
    var c := ChunkFor(cs[k], k);
    assert HeaderOf(cs[k]) == HeaderOf(f);
    assert SplicePart(cs, f, 0) == NewAssembly(c, 0);
    var a, b := SplicePart(cs, f, k), SplicePart(cs, f, k + 1);
    assert b.chunks == a.chunks[k := c.payload] && b.received == a.received[k := true];
  }

  lemma SpliceStep(cs: seq<SentFrame>, f: SentFrame, sent: set<SentFrame>, k: nat, peer: string)
    requires AllSendable(sent) && f in sent && Choice(cs, f, sent) && k < |cs|
    ensures Handle(SpliceTable(cs, f, k, peer), peer, ChunkBody(cs[k], k), 0)
         == if k + 1 < |cs| then (SpliceTable(cs, f, k + 1, peer), None) else (map[], Some(Concat(Spliced(cs))))
  {
    hide Stored, Opened;
    var table := SpliceTable(cs, f, k, peer);
    ReadChunkBody(cs[k], k);
    assert Expire(table, 0) == table;
    SpliceStored(cs, f, sent, k, peer);
    SpliceLength(cs, f, sent);
    assert SplicePart(cs, f, |cs|).chunks == Spliced(cs);
    assert table - {peer} == map[] && table[peer := SplicePart(cs, f, k + 1)] == SpliceTable(cs, f, k + 1, peer);
  }

  lemma SpliceStart(cs: seq<SentFrame>, f: SentFrame, peer: string)
    ensures SpliceTable(cs, f, 0, peer) == map[]
  {
  }

  lemma RunExtends(ds: seq<Delivery>, k: nat)
    requires 0 < k <= |ds|
    ensures Run(NOTHING, ds[..k]) == Receive(Run(NOTHING, ds[..k - 1]), ds[k - 1])
  {
    assert ds[..k][..k - 1] == ds[..k - 1];
  }

  /** Delivered in order, the chosen chunks are shown put together. */
  lemma {:induction false} SpliceIsShown(cs: seq<SentFrame>, f: SentFrame, sent: set<SentFrame>, k: nat, peer: string)
    requires AllSendable(sent) && f in sent && Choice(cs, f, sent) && k <= |cs|
    ensures Run(NOTHING, SpliceRun(cs, f, sent, peer)[..k])
         == if k < |cs| then Outcome(SpliceTable(cs, f, k, peer), [])
            else Outcome(map[], [(peer, Concat(Spliced(cs)))])
  {
    hide Handle, SpliceTable, Spliced, Concat;
    var ds := SpliceRun(cs, f, sent, peer);
    SpliceStart(cs, f, peer);
    if k > 0 {
      SpliceIsShown(cs, f, sent, k - 1, peer);
      SpliceStep(cs, f, sent, k - 1, peer);
      RunExtends(ds, k);
      assert ds[k - 1] == Delivery(peer, ChunkBody(cs[k - 1], k - 1), 0);
    }
  }

  lemma SpliceRunIsHonest(cs: seq<SentFrame>, f: SentFrame, sent: set<SentFrame>, peer: string)
    requires AllSendable(sent) && Choice(cs, f, sent)
    ensures Honest(SpliceRun(cs, f, sent, peer), peer, sent)
  {
    var ds := SpliceRun(cs, f, sent, peer);
    forall k | 0 <= k < |ds| ensures HonestOne(ds[k], peer, sent) {
      assert HeaderOf(cs[k]) == HeaderOf(f);
      assert cs[k] in sent && IsChunkOf(ds[k].body, cs[k]);
    }
  }

  /** Over all runs in which `peer` is honest, in any order, with loss and repeats, and whatever others send: every
    * picture shown for `peer` is one it sent, exactly when every splice of its frames is. */
  lemma NeverMixedIff(peer: string, sent: set<SentFrame>)
    requires AllSendable(sent)
    ensures (forall ds :: Honest(ds, peer, sent) ==> OnlySent(Run(NOTHING, ds).shown, peer, sent))
       <==> SplicesAreSent(sent)
  {
    if SplicesAreSent(sent) {
      forall ds | Honest(ds, peer, sent) ensures OnlySent(Run(NOTHING, ds).shown, peer, sent) {
        HonestRunShowsSent(ds, peer, sent);
      }
    }
    if forall ds :: Honest(ds, peer, sent) ==> OnlySent(Run(NOTHING, ds).shown, peer, sent) {
      forall f, cs | f in sent && Choice(cs, f, sent) ensures IsSent(Concat(Spliced(cs)), sent) {
        ShownSpliceIsSent(cs, f, sent, peer);
      }
    }
  }

  lemma ShownSpliceIsSent(cs: seq<SentFrame>, f: SentFrame, sent: set<SentFrame>, peer: string)
    requires AllSendable(sent) && f in sent && Choice(cs, f, sent)
    requires forall ds :: Honest(ds, peer, sent) ==> OnlySent(Run(NOTHING, ds).shown, peer, sent)
    ensures IsSent(Concat(Spliced(cs)), sent)
  {
    hide Run;
    var ds := SpliceRun(cs, f, sent, peer);
    SpliceRunIsHonest(cs, f, sent, peer);
    SpliceIsShown(cs, f, sent, |cs|, peer);
    assert ds[..|cs|] == ds;
    assert Run(NOTHING, ds).shown[0] == (peer, Concat(Spliced(cs)));
  }

  /** So frames that their headers tell apart are never mixed. */
  lemma NeverMixed(ds: seq<Delivery>, peer: string, sent: set<SentFrame>)
    requires Unambiguous(sent) && Honest(ds, peer, sent)
    ensures OnlySent(Run(NOTHING, ds).shown, peer, sent)
  {
    UnambiguousSplicesAreSent(sent);
    HonestRunShowsSent(ds, peer, sent);
  }

  /** Two frames of two chunks under one header: the first chunk of one and the second of the other are joined. */
  lemma TwoFramesJoined(f: SentFrame, g: SentFrame, peer: string)
    requires Sendable(f) && Sendable(g) && HeaderOf(f) == HeaderOf(g) && ChunkCount(|f.jpeg|) == 2
    ensures Choice([f, g], f, {f, g}) && Concat(Spliced([f, g])) == ChunkOf(f, 0) + ChunkOf(g, 1)
    ensures Run(NOTHING, [Delivery(peer, ChunkBody(f, 0), 0), Delivery(peer, ChunkBody(g, 1), 0)]).shown
         == [(peer, ChunkOf(f, 0) + ChunkOf(g, 1))]
  {
    hide Run;
    var cs := [f, g];
    assert Spliced(cs) == [ChunkOf(f, 0), ChunkOf(g, 1)];
    JoinedTwo(ChunkOf(f, 0), ChunkOf(g, 1));
    SpliceIsShown(cs, f, {f, g}, 2, peer);
    assert SpliceRun(cs, f, {f, g}, peer)[..2]
        == [Delivery(peer, ChunkBody(f, 0), 0), Delivery(peer, ChunkBody(g, 1), 0)];
  }

  /** An input on which pictures are mixed: the frame counter has 16 bits, and two frames that share a number and a
    * size and differ in both chunks are joined into one that nobody sent. */
  lemma SameHeadersAreMixed(peer: string)
    ensures var f, g := SentFrame(0, seq(1101, i => 0)), SentFrame(0, seq(1101, i => 1));
      && Sendable(f) && Sendable(g) && HeaderOf(f) == HeaderOf(g)
      && Run(NOTHING, [Delivery(peer, ChunkBody(f, 0), 0), Delivery(peer, ChunkBody(g, 1), 0)]).shown
         == [(peer, ChunkOf(f, 0) + ChunkOf(g, 1))]
      && !IsSent(ChunkOf(f, 0) + ChunkOf(g, 1), {f, g})
  {
    hide Run, Concat, Spliced;
    var f, g := SentFrame(0, seq(1101, i => 0)), SentFrame(0, seq(1101, i => 1));
    TwoFramesJoined(f, g, peer);
    var mixed := ChunkOf(f, 0) + ChunkOf(g, 1);
    assert mixed[0] == f.jpeg[0] == 0 && mixed[1100] == g.jpeg[1100] == 1 && f.jpeg[1100] == 0 && g.jpeg[0] == 1;
  }

  /** The headers need not differ: frames that differ in their last chunk only are never mixed. */
  lemma LastChunkMayDiffer()
    ensures var f, g := SentFrame(0, seq(1101, i => 0)), SentFrame(0, seq(1100, i => 0) + [1]);
      !Unambiguous({f, g}) && SplicesAreSent({f, g})
  {
    var f, g := SentFrame(0, seq(1101, i => 0)), SentFrame(0, seq(1100, i => 0) + [1]);
    assert f.jpeg[1100] == 0 && g.jpeg[1100] == 1;
    assert ChunkOf(f, 0) == ChunkOf(g, 0) && f.jpeg == ChunkOf(f, 0) + ChunkOf(f, 1)
        && g.jpeg == ChunkOf(g, 0) + ChunkOf(g, 1);
    forall h: SentFrame, cs: seq<SentFrame> | h in {f, g} && Choice(cs, h, {f, g})
      ensures IsSent(Concat(Spliced(cs)), {f, g})
    {
      assert Spliced(cs) == [ChunkOf(cs[0], 0), ChunkOf(cs[1], 1)];
      JoinedTwo(ChunkOf(cs[0], 0), ChunkOf(cs[1], 1));
      assert cs[1].jpeg == Concat(Spliced(cs));
    }
  }

  lemma JoinedTwo(x: seq<byte>, y: seq<byte>)
    ensures Concat([x, y]) == x + y
  {
    assert [x, y][..1] == [x] && [x][..0] == [];
    assert Concat([x]) == [] + x;
  }

  // ---------------------------------------------------------------- always completed

  ghost predicate FromPeer(ds: seq<Delivery>, peer: string) {
    exists k :: 0 <= k < |ds| && ds[k].peer == peer
  }

  /** When `peer` was last heard in this stretch. */
  function LastHeard(ds: seq<Delivery>, peer: string): int {
    if ds == [] then 0
    else if ds[|ds| - 1].peer == peer then ds[|ds| - 1].now
    else LastHeard(ds[..|ds| - 1], peer)
  }

  /** `peer` sends chunks of `f` only, and no packet of anyone comes over five seconds after its last. */
  ghost predicate Steady(ds: seq<Delivery>, peer: string, f: SentFrame) {
    ds == [] ||
    (var init, d := ds[..|ds| - 1], ds[|ds| - 1];
      && Steady(init, peer, f)
      && (d.peer == peer ==> IsChunkOf(d.body, f))
      && (FromPeer(init, peer) ==> d.now - LastHeard(init, peer) <= EXPIRY_MS))
  }

  ghost predicate Arrived(ds: seq<Delivery>, peer: string, f: SentFrame, i: nat)
    requires Sendable(f) && i < ChunkCount(|f.jpeg|)
  {
    exists k :: 0 <= k < |ds| && ds[k].peer == peer && ds[k].body == ChunkBody(f, i)
  }

  ghost predicate Shown(before: Outcome, after: Outcome, peer: string, jpeg: seq<byte>) {
    exists k :: |before.shown| <= k < |after.shown| && after.shown[k] == (peer, jpeg)
  }

  /** Everything of `f` that arrived so far is stored. */
  ghost predicate Keeping(
      ds: seq<Delivery>, table: map<string, Assembly>, peer: string, sent: set<SentFrame>, f: SentFrame)
    requires Sendable(f)
  {
    FromPeer(ds, peer) ==>
      && peer in table && MadeOf(table[peer], f, sent) && table[peer].lastUpdate == LastHeard(ds, peer)
      && forall i :: 0 <= i < ChunkCount(|f.jpeg|) && Arrived(ds, peer, f, i) ==> table[peer].received[i]
  }

  lemma ChunkBodyInjective(f: SentFrame, i: nat, j: nat)
    requires Sendable(f) && i < ChunkCount(|f.jpeg|) && j < ChunkCount(|f.jpeg|)
    requires ChunkBody(f, i) == ChunkBody(f, j)
    ensures i == j
  {
    ReadChunkBody(f, i);
    ReadChunkBody(f, j);
  }

  lemma HeardBefore(ds: seq<Delivery>, peer: string)
    requires ds != [] && FromPeer(ds, peer) && ds[|ds| - 1].peer != peer
    ensures FromPeer(ds[..|ds| - 1], peer)
  {
  }

  lemma ArrivedBefore(ds: seq<Delivery>, peer: string, f: SentFrame, i: nat)
    requires Sendable(f) && i < ChunkCount(|f.jpeg|) && ds != [] && Arrived(ds, peer, f, i)
    ensures (ds[|ds| - 1].peer == peer && ds[|ds| - 1].body == ChunkBody(f, i)) || Arrived(ds[..|ds| - 1], peer, f, i)
    ensures Arrived(ds[..|ds| - 1], peer, f, i) ==> FromPeer(ds[..|ds| - 1], peer)
  {
  }

  lemma OwnFrameChunk(table: map<string, Assembly>, peer: string, sent: set<SentFrame>, f: SentFrame, i: nat, now: int)
    requires Unambiguous(sent) && f in sent && Sendable(f) && i < ChunkCount(|f.jpeg|) && PeerInv(table, peer, sent)
    ensures var (after, completed) := Handle(table, peer, ChunkBody(f, i), now);
      PeerInv(after, peer, sent) && (completed.Some? ==> completed.value == f.jpeg)
  {
    hide Handle, PeerInv;
    OwnChunk(table, peer, sent, f, i, now);
    var (after, completed) := Handle(table, peer, ChunkBody(f, i), now);
    if completed.Some? {
      var cs :| Choice(cs, f, sent) && completed.value == Concat(Spliced(cs));
      UnambiguousSplice(cs, f, sent);
    }
  }

  lemma OwnChunkKept(
      table: map<string, Assembly>, ds: seq<Delivery>, peer: string, sent: set<SentFrame>, f: SentFrame, i: nat)
    requires f in sent && Sendable(f) && i < ChunkCount(|f.jpeg|) && PeerInv(table, peer, sent)
    requires Steady(ds, peer, f) && ds != [] && ds[|ds| - 1].peer == peer && ds[|ds| - 1].body == ChunkBody(f, i)
    requires Keeping(ds[..|ds| - 1], table, peer, sent, f)
    ensures var (after, completed) := Handle(table, peer, ChunkBody(f, i), ds[|ds| - 1].now);
      completed.None? ==> Keeping(ds, after, peer, sent, f)
  {
    var init, now := ds[..|ds| - 1], ds[|ds| - 1].now;
    var (after, completed) := Handle(table, peer, ChunkBody(f, i), now);
    OwnChunk(table, peer, sent, f, i, now);
    if completed.None? {
      forall j | 0 <= j < ChunkCount(|f.jpeg|) && Arrived(ds, peer, f, j) ensures after[peer].received[j] {
        ArrivedBefore(ds, peer, f, j);
        if j != i {
          if ChunkBody(f, j) == ChunkBody(f, i) {
            ChunkBodyInjective(f, i, j);
          }
          assert Arrived(init, peer, f, j);
          assert table[peer].received[j];
        }
      }
    }
  }

  lemma {:induction false} Progress(o: Outcome, ds: seq<Delivery>, peer: string, sent: set<SentFrame>, f: SentFrame)
    requires Unambiguous(sent) && f in sent && Sendable(f) && PeerInv(o.table, peer, sent) && Steady(ds, peer, f)
    ensures PeerInv(Run(o, ds).table, peer, sent) && o.shown <= Run(o, ds).shown
    ensures Shown(o, Run(o, ds), peer, f.jpeg) || Keeping(ds, Run(o, ds).table, peer, sent, f)
  {
    if ds != [] {
      var init, d := ds[..|ds| - 1], ds[|ds| - 1];
      Progress(o, init, peer, sent, f);
      var before, after := Run(o, init), Run(o, ds);
      assert after == Receive(before, d);
      assert before.shown <= after.shown;
      if Shown(o, before, peer, f.jpeg) {
        var k :| |o.shown| <= k < |before.shown| && before.shown[k] == (peer, f.jpeg);
        assert after.shown[k] == (peer, f.jpeg);
      }
      if d.peer == peer {
        var i :| 0 <= i < ChunkCount(|f.jpeg|) && d.body == ChunkBody(f, i);
        OwnFrameChunk(before.table, peer, sent, f, i, d.now);
        if !Shown(o, before, peer, f.jpeg) {
          OwnChunkKept(before.table, ds, peer, sent, f, i);
          if Handle(before.table, peer, d.body, d.now).1.Some? {
            assert after.shown[|before.shown|] == (peer, f.jpeg);
          }
        }
      } else {
        OthersChunk(before.table, peer, d.peer, sent, d.body, d.now);
        if !Shown(o, before, peer, f.jpeg) {
          OthersKeep(before.table, ds, peer, sent, f);
        }
      }
    }
  }

  lemma OthersKeep(
      table: map<string, Assembly>, ds: seq<Delivery>, peer: string, sent: set<SentFrame>, f: SentFrame)
    requires Sendable(f) && Steady(ds, peer, f) && ds != [] && ds[|ds| - 1].peer != peer
    requires Keeping(ds[..|ds| - 1], table, peer, sent, f)
    ensures var d := ds[|ds| - 1]; Keeping(ds, Handle(table, d.peer, d.body, d.now).0, peer, sent, f)
  {
    var init, d := ds[..|ds| - 1], ds[|ds| - 1];
    if FromPeer(ds, peer) {
      HeardBefore(ds, peer);
      assert d.now - table[peer].lastUpdate <= EXPIRY_MS;
      var after := Handle(table, d.peer, d.body, d.now).0;
      assert peer in after && after[peer] == table[peer];
      forall i | 0 <= i < ChunkCount(|f.jpeg|) && Arrived(ds, peer, f, i) ensures after[peer].received[i] {
        ArrivedBefore(ds, peer, f, i);
      }
    }
  }

  /** All chunks of a frame, in any order and with repeats, between any packets of others, show the frame. */
  lemma AllChunksShowFrame(o: Outcome, ds: seq<Delivery>, peer: string, sent: set<SentFrame>, f: SentFrame)
    requires Unambiguous(sent) && f in sent && Sendable(f) && PeerInv(o.table, peer, sent) && Steady(ds, peer, f)
    requires forall i :: 0 <= i < ChunkCount(|f.jpeg|) ==> Arrived(ds, peer, f, i)
    ensures exists k :: |o.shown| <= k < |Run(o, ds).shown| && Run(o, ds).shown[k] == (peer, f.jpeg)
  {
    Progress(o, ds, peer, sent, f);
    if !Shown(o, Run(o, ds), peer, f.jpeg) {
      assert Arrived(ds, peer, f, 0);
      var a := Run(o, ds).table[peer];
      CountFull(a.received);
    }
  }

  /** After more than five seconds without a chunk of the peer, what was collected is gone and collecting starts over;
    * each chunk that comes also drops what other peers left that long ago, and leaves the rest of theirs alone. */
  lemma SilenceStartsOver(table: map<string, Assembly>, peer: string, f: SentFrame, i: nat, now: int, other: string)
    requires Sendable(f) && i < ChunkCount(|f.jpeg|) && ChunkCount(|f.jpeg|) > 1 && other != peer
    requires peer in table ==> now - table[peer].lastUpdate > 5000
    ensures var (post, shown) := Handle(table, peer, ChunkBody(f, i), now);
      && shown == None && peer in post && |post[peer].received| == ChunkCount(|f.jpeg|) == |post[peer].chunks|
      && (post[peer].frameId, post[peer].chunkCount, post[peer].totalSize) == HeaderOf(f)
      && (forall j :: 0 <= j < |post[peer].received| ==> (post[peer].received[j] <==> j == i))
      && post[peer].chunks[i] == ChunkOf(f, i) && post[peer].lastUpdate == now
      && (other in post <==> other in table && now - table[other].lastUpdate <= 5000)
      && (other in post ==> post[other] == table[other])
  {
    ReadChunkBody(f, i);
    var live := Expire(table, now);
    assert peer !in live;
  }
}
