/** What holds over every run of the playback engine, whatever arrives, however the device behaves. */
module PlaybackRuns {
  import opened Wrappers
  import opened Bytes
  import opened Playback

  datatype Step =
    | Push(id: string, data: seq<byte>, now: int)
    | Turn(now: int, mixNow: int, audible: set<string>)
    | Submit(accepted: bool)
    | DeviceDone(buffer: nat)
    /** Playback is stopped and started again: the device gives everything back. */
    | Restart

  function Do(p: Player, s: Step): Player {
    match s
    case Push(id, data, now) => PlayFrame(p, id, data, now)
    case Turn(now, mixNow, audible) => WorkerTurn(p, now, mixNow, audible)
    case Submit(accepted) => SubmitOutputBuffer(p, accepted)
    case DeviceDone(i) => ReleaseOutputBuffer(p, i)
    case Restart => Fresh()
  }

  function Execute(steps: seq<Step>): Player {
    if steps == [] then Fresh() else Do(Execute(steps[..|steps| - 1]), steps[|steps| - 1])
  }

  // ---------------------------------------------------------------- the queue of one source

  /** The position in `pushed` of the oldest frame still waiting. */
  function Front(s: Source): nat {
    |s.played| + s.trimmed
  }

  /** Bounded; what waits is the end of what came in; every other frame was played or thrown away, played ones once
    * each and in the order they came in. */
  ghost predicate SourceInv(s: Source) {
    && |s.frames| <= MAX_SOURCE_BUFFER_FRAMES
    && |s.pushed| == |s.played| + s.trimmed + |s.frames|
    && s.frames == s.pushed[Front(s)..]
    && (forall i :: 0 <= i < |s.played| ==> s.played[i] < Front(s))
    && (forall i, j :: 0 <= i < j < |s.played| ==> s.played[i] < s.played[j])
  }

  lemma TrimKeeps(s: Source)
    requires SourceInv(s)
    ensures SourceInv(Trim(s)) && |Trim(s).frames| < MAX_SOURCE_BUFFER_FRAMES
    ensures Trim(s).pushed == s.pushed && Trim(s).played == s.played
  {
  }

  lemma AppendKeeps(s: Source, frame: Frame, now: int)
    requires SourceInv(s)
    ensures SourceInv(Append(s, frame, now))
  {
    TrimKeeps(s);
    var t, a := Trim(s), Append(s, frame, now);
    assert a.pushed[Front(a)..] == t.pushed[Front(t)..] + [frame];
  }

  lemma PopKeeps(s: Source)
    requires SourceInv(s)
    ensures SourceInv(PopFront(s))
    ensures s.frames != [] ==>
      PopFront(s).played == s.played + [Front(s)] && s.frames[0] == s.pushed[Front(s)]
  {
  }

  /** Frames are thrown away only when a full queue is pushed to, twelve at a time, and never the newest six. */
  lemma TrimmedOnlyWhenFull(s: Source, frame: Frame, now: int)
    requires SourceInv(s)
    ensures var a := Append(s, frame, now);
      && (|s.frames| < MAX_SOURCE_BUFFER_FRAMES ==> a.trimmed == s.trimmed && a.frames == s.frames + [frame])
      && (|s.frames| == MAX_SOURCE_BUFFER_FRAMES ==>
            a.trimmed == s.trimmed + 12 && a.frames == s.frames[12..] + [frame] && |a.frames| == 7)
  {
  }

  // ---------------------------------------------------------------- what the worker makes

  /** How many frames were made since the last mix, and how many of them repeat an old one. */
  function Gap(made: seq<Made>): nat {
    if made == [] || made[|made| - 1] == Mixed then 0 else 1 + Gap(made[..|made| - 1])
  }

  function Repeats(made: seq<Made>): nat {
    if made == [] || made[|made| - 1] == Mixed then 0
    else Repeats(made[..|made| - 1]) + if made[|made| - 1] == Concealed then 1 else 0
  }

  function CountConcealed(made: seq<Made>): nat {
    if made == [] then 0
    else CountConcealed(made[..|made| - 1]) + if made[|made| - 1] == Concealed then 1 else 0
  }

  ghost predicate NoMix(made: seq<Made>) {
    forall k :: 0 <= k < |made| ==> made[k] != Mixed
  }

  lemma {:induction false} WindowAtEnd(made: seq<Made>, i: nat)
    requires i <= |made| && NoMix(made[i..])
    ensures |made| - i <= Gap(made) && CountConcealed(made[i..]) <= Repeats(made)
  {
    if i < |made| {
      var init, last := made[..|made| - 1], made[|made| - 1];
      assert made[i..] == init[i..] + [last] && made[i..][|made| - 1 - i] == last;
      assert NoMix(init[i..]) by {
        forall k | 0 <= k < |init[i..]| ensures init[i..][k] != Mixed {
          assert init[i..][k] == made[i..][k];
        }
      }
      WindowAtEnd(init, i);
      assert made[i..][..|made[i..]| - 1] == init[i..];
    }
  }

  ghost predicate ShortGaps(made: seq<Made>) {
    forall n :: 0 <= n <= |made| ==>
      Gap(made[..n]) < OUTPUT_BUFFER_COUNT && Repeats(made[..n]) <= MAX_CONCEALMENT_FRAMES
  }

  lemma MadeOneMore(made: seq<Made>, m: Made)
    requires ShortGaps(made)
    requires Gap(made + [m]) < OUTPUT_BUFFER_COUNT && Repeats(made + [m]) <= MAX_CONCEALMENT_FRAMES
    ensures ShortGaps(made + [m])
  {
    forall n | 0 <= n <= |made + [m]|
      ensures Gap((made + [m])[..n]) < OUTPUT_BUFFER_COUNT && Repeats((made + [m])[..n]) <= MAX_CONCEALMENT_FRAMES
    {
      if n <= |made| {
        assert (made + [m])[..n] == made[..n];
      } else {
        assert (made + [m])[..n] == made + [m];
      }
    }
  }

  // ---------------------------------------------------------------- the invariant

  ghost predicate QueuesInv(p: Player) {
    forall k :: k in p.sources ==> SourceInv(p.sources[k])
  }

  /** Each buffer is in exactly one place: free, in the worker's hand, or with the device. */
  ghost predicate BuffersInv(p: Player) {
    && |p.free| == OUTPUT_BUFFER_COUNT
    && (p.inHand.Some? ==> p.inHand.value < OUTPUT_BUFFER_COUNT)
    && (forall i :: 0 <= i < OUTPUT_BUFFER_COUNT ==>
          && (p.free[i] <==> p.inHand != Some(i) && !OnDevice(p.events, i))
          && !(p.inHand == Some(i) && OnDevice(p.events, i)))
  }

  /** No buffer is written to the device while the device still has it. */
  ghost predicate WritesInv(p: Player) {
    forall n :: 0 <= n < |p.events| && p.events[n].Write? ==> !OnDevice(p.events[..n], p.events[n].buffer)
  }

  ghost predicate GapsInv(p: Player) {
    && ShortGaps(p.made)
    && Repeats(p.made) == p.held
    && (if p.primed then Gap(p.made) == p.underruns < OUTPUT_BUFFER_COUNT
        else Gap(p.made) < OUTPUT_BUFFER_COUNT)
  }

  ghost predicate Inv(p: Player) {
    QueuesInv(p) && BuffersInv(p) && WritesInv(p) && GapsInv(p)
  }

  lemma PushKeepsQueues(p: Player, id: string, data: seq<byte>, now: int)
    requires QueuesInv(p)
    ensures QueuesInv(PlayFrame(p, id, data, now))
  {
    if AlignedLength(|data|) > 0 {
      var key := SourceKey(id);
      var entry := Append(Entry(p.sources, key, now), FrameOf(data), now);
      AppendKeeps(Entry(p.sources, key, now), FrameOf(data), now);
      var sources := p.sources[key := entry];
      forall k | k in Cleanup(sources, now) ensures SourceInv(Cleanup(sources, now)[k]) {
        assert Cleanup(sources, now)[k] == sources[k];
        if k != key {
          assert k in p.sources && sources[k] == p.sources[k];
        }
      }
    }
  }

  lemma TurnKeepsQueues(p: Player, now: int, mixNow: int, audible: set<string>)
    requires QueuesInv(p)
    ensures QueuesInv(WorkerTurn(p, now, mixNow, audible))
  {
    if CanTake(p) {
      var sources := Cleanup(p.sources, now);
      forall k | k in MixSources(sources, mixNow) ensures SourceInv(MixSources(sources, mixNow)[k]) {
        PopKeeps(sources[k]);
      }
    }
  }

  /** A worker that starts again after buffering finds a frame to mix at once. */
  lemma StartConsumes(sources: map<string, Source>, now: int)
    requires StartupReady(sources)
    ensures Givers(Cleanup(sources, now)) != {}
  {
    var k :| k in sources && |sources[k].frames| >= STARTUP_BUFFER_FRAMES;
    assert k in Givers(Cleanup(sources, now));
  }

  lemma GapOneMore(made: seq<Made>, m: Made)
    ensures m == Mixed ==> Gap(made + [m]) == 0 && Repeats(made + [m]) == 0
    ensures m != Mixed ==> Gap(made + [m]) == Gap(made) + 1
    ensures m == Concealed ==> Repeats(made + [m]) == Repeats(made) + 1
    ensures m == Silent ==> Repeats(made + [m]) == Repeats(made)
  {
  }

  lemma ShortAtEnd(made: seq<Made>)
    requires ShortGaps(made)
    ensures Gap(made) < OUTPUT_BUFFER_COUNT && Repeats(made) <= MAX_CONCEALMENT_FRAMES
  {
    assert made[..|made|] == made;
  }

  lemma AccountedKeepsGaps(p: Player, i: nat, consumed: bool, contributes: bool)
    requires i < |p.free| && ShortGaps(p.made) && Repeats(p.made) == p.held
    requires consumed || Gap(p.made) == p.underruns < OUTPUT_BUFFER_COUNT
    requires p.primed
    ensures GapsInv(Accounted(p, i, consumed, contributes))
  {
    hide Gap, Repeats, ShortGaps;
    var q := Accounted(p, i, consumed, contributes);
    ShortAtEnd(p.made);
    if q.made != p.made {
      var m := q.made[|p.made|];
      assert q.made == p.made + [m];
      GapOneMore(p.made, m);
      MadeOneMore(p.made, m);
    }
  }

  lemma TurnKeepsGaps(p: Player, now: int, mixNow: int, audible: set<string>)
    requires GapsInv(p)
    ensures GapsInv(WorkerTurn(p, now, mixNow, audible))
  {
    if CanTake(p) {
      var sources := Cleanup(p.sources, now);
      var i := FirstFree(p.free);
      var q := p.(sources := MixSources(sources, mixNow), primed := true, free := p.free[i := false]);
      if !p.primed {
        StartConsumes(p.sources, now);
      }
      AccountedKeepsGaps(q, i, Givers(sources) != {}, Givers(sources) * audible != {});
    }
  }

  lemma TurnKeepsBuffers(p: Player, now: int, mixNow: int, audible: set<string>)
    requires BuffersInv(p)
    ensures BuffersInv(WorkerTurn(p, now, mixNow, audible))
    ensures WorkerTurn(p, now, mixNow, audible).events == p.events
  {
    if CanTake(p) {
      var i := FirstFree(p.free);
      var taken, back := p.free[i := false], p.free[i := false][i := true];
      assert back == p.free;
      var q := WorkerTurn(p, now, mixNow, audible);
      assert q.events == p.events;
      assert (q.free == p.free && q.inHand == p.inHand) || (q.free == taken && q.inHand == Some(i));
    }
  }

  lemma OneEventMore(events: seq<DeviceEvent>, e: DeviceEvent)
    ensures forall i :: OnDevice(events + [e], i) == if i == e.buffer then e.Write? else OnDevice(events, i)
  {
  }

  lemma SubmitKeepsBuffers(p: Player, accepted: bool)
    requires BuffersInv(p) && WritesInv(p)
    ensures BuffersInv(SubmitOutputBuffer(p, accepted)) && WritesInv(SubmitOutputBuffer(p, accepted))
  {
    var q := SubmitOutputBuffer(p, accepted);
    if q.events != p.events {
      var e := Write(p.inHand.value);
      OneEventMore(p.events, e);
      EventKeepsWrites(p, q, e);
    }
  }

  lemma EventKeepsWrites(p: Player, q: Player, e: DeviceEvent)
    requires WritesInv(p) && q.events == p.events + [e]
    requires e.Write? ==> !OnDevice(p.events, e.buffer)
    ensures WritesInv(q)
  {
    forall n | 0 <= n < |q.events| && q.events[n].Write? ensures !OnDevice(q.events[..n], q.events[n].buffer) {
      assert q.events[..n] == p.events[..n];
      if n == |p.events| {
        assert p.events[..n] == p.events;
      }
    }
  }

  lemma ReleaseKeepsBuffers(p: Player, i: nat)
    requires BuffersInv(p) && WritesInv(p)
    ensures BuffersInv(ReleaseOutputBuffer(p, i)) && WritesInv(ReleaseOutputBuffer(p, i))
  {
    var q := ReleaseOutputBuffer(p, i);
    if q.events != p.events {
      OneEventMore(p.events, Done(i));
      EventKeepsWrites(p, q, Done(i));
    }
  }

  lemma DoKeepsInv(p: Player, s: Step)
    requires Inv(p)
    ensures Inv(Do(p, s))
  {
    match s
    case Push(id, data, now) => PushKeepsQueues(p, id, data, now);
    case Turn(now, mixNow, audible) =>
      TurnKeepsQueues(p, now, mixNow, audible);
      TurnKeepsGaps(p, now, mixNow, audible);
      TurnKeepsBuffers(p, now, mixNow, audible);
    case Submit(accepted) => SubmitKeepsBuffers(p, accepted);
    case DeviceDone(i) => ReleaseKeepsBuffers(p, i);
    case Restart =>
  }

  lemma {:induction false} ReachableInv(steps: seq<Step>)
    ensures Inv(Execute(steps))
  {
    if steps != [] {
      ReachableInv(steps[..|steps| - 1]);
      DoKeepsInv(Execute(steps[..|steps| - 1]), steps[|steps| - 1]);
    }
  }

  // ---------------------------------------------------------------- the theorems

  /** No queue outgrows 18 frames, and what waits is the end of what was pushed since the entry was made. */
  lemma QueuesAreSuffixes(steps: seq<Step>, key: string)
    requires key in Execute(steps).sources
    ensures var s := Execute(steps).sources[key];
      && |s.frames| <= 18
      && |s.pushed| == |s.played| + s.trimmed + |s.frames|
      && s.frames == s.pushed[|s.pushed| - |s.frames|..]
      && (forall i, j :: 0 <= i < j < |s.played| ==> s.played[i] < s.played[j] < |s.pushed| - |s.frames|)
  {
    ReachableInv(steps);
  }

  /** Twelve buffers, each in exactly one of three places. */
  lemma BuffersConserved(steps: seq<Step>, i: nat)
    requires i < 12
    ensures var p := Execute(steps);
      && |p.free| == 12
      && (p.free[i] || p.inHand == Some(i) || OnDevice(p.events, i))
      && !(p.free[i] && p.inHand == Some(i)) && !(p.free[i] && OnDevice(p.events, i))
      && !(p.inHand == Some(i) && OnDevice(p.events, i))
  {
    ReachableInv(steps);
  }

  lemma {:induction false} StillOnDevice(events: seq<DeviceEvent>, w: nat, i: nat)
    requires w < |events| && events[w] == Write(i)
    requires forall r :: w < r < |events| ==> events[r] != Done(i)
    ensures OnDevice(events, i)
  {
    if w < |events| - 1 && events[|events| - 1].buffer != i {
      StillOnDevice(events[..|events| - 1], w, i);
    }
  }

  /** Between two writes of one buffer lies its done event. */
  lemma NeverRewrittenBeforeDone(steps: seq<Step>, w: nat, v: nat, i: nat)
    requires w < v < |Execute(steps).events|
    requires Execute(steps).events[w] == Write(i) == Execute(steps).events[v]
    ensures exists r :: w < r < v && Execute(steps).events[r] == Done(i)
  {
    ReachableInv(steps);
    var events := Execute(steps).events;
    if forall r :: w < r < v ==> events[r] != Done(i) {
      StillOnDevice(events[..v], w, i);
    }
  }

  /** Frames made without a source frame: at most eleven in a row, at most two of them repeats of an old frame. */
  lemma ShortDryRuns(steps: seq<Step>, i: nat, j: nat)
    requires i <= j <= |Execute(steps).made| && NoMix(Execute(steps).made[i..j])
    ensures j - i <= 11 && CountConcealed(Execute(steps).made[i..j]) <= 2
  {
    ReachableInv(steps);
    var made := Execute(steps).made;
    assert made[..j][i..] == made[i..j];
    WindowAtEnd(made[..j], i);
    assert Gap(made[..j]) < OUTPUT_BUFFER_COUNT;
  }

  /** In a turn, `s` has given its oldest frame; it is gone only if that was its last one and it is idle. */
  ghost predicate GaveOldest(s: Source, sources: map<string, Source>, key: string, now: int) {
    && s.frames != [] && Front(s) < |s.pushed| && s.frames[0] == s.pushed[Front(s)]
    && (key in sources <==> |s.frames| > 1 || now - s.lastSeen <= 3000)
    && (key in sources ==>
          && sources[key].played == s.played + [Front(s)] && sources[key].frames == s.frames[1..]
          && sources[key].pushed == s.pushed && sources[key].trimmed == s.trimmed)
  }

  lemma MixTakesOldest(sources: map<string, Source>, now: int, mixNow: int, key: string)
    requires key in sources && SourceInv(sources[key])
    ensures var s, mixed := sources[key], MixSources(Cleanup(sources, now), mixNow);
      if s.frames != [] then GaveOldest(s, mixed, key, mixNow) else key in mixed ==> mixed[key] == s
  {
  }

  /** Every turn that takes a buffer takes the oldest frame of each source that has one, and nothing of the others. */
  lemma TurnTakesOldest(steps: seq<Step>, now: int, mixNow: int, audible: set<string>, key: string)
    requires CanTake(Execute(steps)) && key in Execute(steps).sources
    ensures var s, q := Execute(steps).sources[key], WorkerTurn(Execute(steps), now, mixNow, audible);
      if s.frames != [] then GaveOldest(s, q.sources, key, mixNow) else key in q.sources ==> q.sources[key] == s
  {
    hide GaveOldest, MixSources, Cleanup, SourceInv;
    ReachableInv(steps);
    MixTakesOldest(Execute(steps).sources, now, mixNow, key);
  }

  /** The first turn after buffering makes a mixed frame, and some source gives to it and stays. */
  lemma FirstTurnMixes(steps: seq<Step>, now: int, mixNow: int, audible: set<string>)
    requires CanTake(Execute(steps)) && !Execute(steps).primed
    ensures var p, q := Execute(steps), WorkerTurn(Execute(steps), now, mixNow, audible);
      && q.primed && q.made == p.made + [Mixed] && q.inHand.Some?
      && (forall k :: k in Givers(p.sources) ==> GaveOldest(p.sources[k], q.sources, k, mixNow))
      && (exists k :: k in Givers(p.sources) && k in q.sources && |q.sources[k].frames| >= 5)
  {
    var p, q := Execute(steps), WorkerTurn(Execute(steps), now, mixNow, audible);
    StartConsumes(p.sources, now);
    forall k | k in Givers(p.sources) ensures GaveOldest(p.sources[k], q.sources, k, mixNow) {
      TurnTakesOldest(steps, now, mixNow, audible, k);
    }
    var k :| k in p.sources && |p.sources[k].frames| >= STARTUP_BUFFER_FRAMES;
    assert k in Givers(p.sources) && GaveOldest(p.sources[k], q.sources, k, mixNow);
  }
}
