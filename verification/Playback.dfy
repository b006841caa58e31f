/** Playback: bounded queues per source, twelve output buffers, and the worker that mixes frames into them. */
module Playback {
  import opened Wrappers
  import opened Bytes

  const FRAME_BYTES: nat := 960
  const BLOCK_ALIGN: nat := 2
  const OUTPUT_BUFFER_COUNT: nat := 12
  const STARTUP_BUFFER_FRAMES: nat := 6
  const TARGET_SOURCE_BUFFER_FRAMES: nat := 6
  const MAX_SOURCE_BUFFER_FRAMES: nat := 18
  const MAX_CONCEALMENT_FRAMES: nat := 2
  const SOURCE_IDLE_TIMEOUT_MS: int := 3000

  type Frame = seq<byte>

  /** `pushed`, `played` and `trimmed` remember what happened to the entry since it was made: every frame that came
    * in, the positions in `pushed` of the frames that were mixed, and how many were thrown away. */
  datatype Source = Source(frames: seq<Frame>, lastSeen: int, pushed: seq<Frame>, played: seq<nat>, trimmed: nat)

  /** What the worker made of one free buffer. */
  datatype Made = Mixed | Concealed | Silent

  datatype DeviceEvent = Write(buffer: nat) | Done(buffer: nat)

  /** `inHand` is the buffer between its mix and its submission. `made` and `events` only observe. */
  datatype Player = Player(
    sources: map<string, Source>, free: seq<bool>, primed: bool, underruns: nat, held: nat, hasLast: bool,
    inHand: Option<nat>, made: seq<Made>, events: seq<DeviceEvent>)

  function Fresh(): Player {
    Player(map[], seq(OUTPUT_BUFFER_COUNT, i => true), false, 0, 0, false, None, [], [])
  }

  // ---------------------------------------------------------------- one source

  function NewSource(now: int): Source {
    Source([], now, [], [], 0)
  }

  function Trim(s: Source): Source {
    if |s.frames| < MAX_SOURCE_BUFFER_FRAMES then s
    else
      var excess := |s.frames| - TARGET_SOURCE_BUFFER_FRAMES;
      s.(frames := s.frames[excess..], trimmed := s.trimmed + excess)
  }

  function Append(s: Source, frame: Frame, now: int): Source {
    var t := Trim(s);
    t.(frames := t.frames + [frame], pushed := t.pushed + [frame], lastSeen := now)
  }

  function PopFront(s: Source): Source {
    if s.frames == [] then s
    else s.(frames := s.frames[1..], played := s.played + [|s.played| + s.trimmed])
  }

  predicate Idle(s: Source, now: int) {
    s.frames == [] && now - s.lastSeen > SOURCE_IDLE_TIMEOUT_MS
  }

  // ---------------------------------------------------------------- all sources

  function Cleanup(sources: map<string, Source>, now: int): map<string, Source> {
    map k | k in sources && !Idle(sources[k], now) :: sources[k]
  }

  /** Each source gives its oldest frame; what is then empty and idle goes. */
  function MixSources(sources: map<string, Source>, now: int): map<string, Source> {
    map k | k in sources && !Idle(PopFront(sources[k]), now) :: PopFront(sources[k])
  }

  function MixOne(sources: map<string, Source>, key: string, now: int): map<string, Source>
    requires key in sources
  {
    var s := PopFront(sources[key]);
    if Idle(s, now) then sources - {key} else sources[key := s]
  }

  /** The sources with a frame to give. */
  function Givers(sources: map<string, Source>): set<string> {
    set k | k in sources && sources[k].frames != []
  }

  predicate StartupReady(sources: map<string, Source>) {
    exists k :: k in sources && |sources[k].frames| >= STARTUP_BUFFER_FRAMES
  }

  // ---------------------------------------------------------------- the steps

  function AlignedLength(length: nat): nat {
    var aligned := length - length % BLOCK_ALIGN;
    if aligned < FRAME_BYTES then aligned else FRAME_BYTES
  }

  /** A short packet is filled up with silence. */
  function FrameOf(data: seq<byte>): (f: Frame)
    ensures |f| == FRAME_BYTES
  {
    data[..AlignedLength(|data|)] + seq(FRAME_BYTES - AlignedLength(|data|), i => 0)
  }

  function SourceKey(id: string): string {
    if id == "" then "default" else id
  }

  function Entry(sources: map<string, Source>, key: string, now: int): Source {
    if key in sources then sources[key] else NewSource(now)
  }

  function PlayFrame(p: Player, id: string, data: seq<byte>, now: int): Player {
    if AlignedLength(|data|) == 0 then p
    else
      var key := SourceKey(id);
      p.(sources := Cleanup(p.sources[key := Append(Entry(p.sources, key, now), FrameOf(data), now)], now))
  }

  /** The lowest free buffer, or their number when there is none. */
  function FirstFree(free: seq<bool>): (i: nat)
    ensures i <= |free| && (i < |free| ==> free[i])
    ensures forall k :: 0 <= k < i ==> !free[k]
  {
    if free == [] || free[0] then 0 else 1 + FirstFree(free[1..])
  }

  predicate CanTake(p: Player) {
    p.inHand == None && FirstFree(p.free) < |p.free| && (p.primed || StartupReady(p.sources))
  }

  /** What becomes of buffer `i`, taken for a mix that did or did not consume a frame. */
  function Accounted(p: Player, i: nat, consumed: bool, contributes: bool): Player
    requires i < |p.free|
  {
    if consumed then
      p.(inHand := Some(i), underruns := 0, held := 0, hasLast := p.hasLast || contributes, made := p.made + [Mixed])
    else if p.underruns + 1 >= OUTPUT_BUFFER_COUNT then
      p.(primed := false, underruns := p.underruns + 1, free := p.free[i := true])
    else if p.hasLast && p.held < MAX_CONCEALMENT_FRAMES then
      p.(inHand := Some(i), underruns := p.underruns + 1, held := p.held + 1, made := p.made + [Concealed])
    else p.(inHand := Some(i), underruns := p.underruns + 1, made := p.made + [Silent])
  }

  /** One turn of the worker, up to the point where it lets go of the lock. */
  function WorkerTurn(p: Player, now: int, mixNow: int, audible: set<string>): Player {
    if !CanTake(p) then p
    else
      var sources := Cleanup(p.sources, now);
      var i := FirstFree(p.free);
      var q := p.(sources := MixSources(sources, mixNow), primed := true, free := p.free[i := false]);
      Accounted(q, i, Givers(sources) != {}, Givers(sources) * audible != {})
  }

  /** The device takes the buffer, or refuses it and it is free again at once. */
  function SubmitOutputBuffer(p: Player, accepted: bool): Player {
    if p.inHand == None || p.inHand.value >= |p.free| then p
    else if accepted then p.(inHand := None, events := p.events + [Write(p.inHand.value)])
    else p.(inHand := None, free := p.free[p.inHand.value := true])
  }

  /** Whether the device has the buffer: it was written and its done event has not come yet. */
  predicate OnDevice(events: seq<DeviceEvent>, i: nat) {
    if events == [] then false
    else
      var last := events[|events| - 1];
      if last.buffer == i then last.Write? else OnDevice(events[..|events| - 1], i)
  }

  /** The done event; the device sends it only for buffers it has. */
  function ReleaseOutputBuffer(p: Player, i: nat): Player {
    if i < |p.free| && OnDevice(p.events, i) then p.(free := p.free[i := true], events := p.events + [Done(i)]) else p
  }

  // ---------------------------------------------------------------- the engine as the program keeps it

  class Engine {
    var playbackSources: map<string, Source>
    const outBufferFree: array<bool>
    var playbackPrimed: bool
    var consecutiveUnderruns: nat
    var playbackHoldFrames: nat
    var hasLastPlaybackFrame: bool
    var inHand: Option<nat>
    ghost var made: seq<Made>
    ghost var events: seq<DeviceEvent>

    ghost function Value(): Player
      reads this, outBufferFree
    {
      Player(playbackSources, outBufferFree[..], playbackPrimed, consecutiveUnderruns, playbackHoldFrames,
             hasLastPlaybackFrame, inHand, made, events)
    }

    constructor ()
      ensures fresh(outBufferFree) && Value() == Fresh()
    {
      playbackSources, playbackPrimed, consecutiveUnderruns := map[], false, 0;
      playbackHoldFrames, hasLastPlaybackFrame, inHand := 0, false, None;
      made, events := [], [];
      outBufferFree := new bool[OUTPUT_BUFFER_COUNT](i => true);
    }

    method CleanupIdleSources(now: int)
      modifies `playbackSources
      ensures playbackSources == Cleanup(old(playbackSources), now)
    {
      var todo := playbackSources.Keys;
      while todo != {}
        invariant todo <= playbackSources.Keys <= old(playbackSources).Keys
        invariant forall k :: k in playbackSources ==> playbackSources[k] == old(playbackSources)[k]
        invariant forall k :: k in old(playbackSources) && k !in todo ==>
                    (k in playbackSources <==> !Idle(old(playbackSources)[k], now))
        decreases |todo|
      {
        var key :| key in todo;
        todo := todo - {key};
        if Idle(playbackSources[key], now) {
          playbackSources := playbackSources - {key};
        }
      }
    }

    method PlayFrameFromSource(id: string, data: seq<byte>, now: int)
      modifies `playbackSources
      ensures Value() == PlayFrame(old(Value()), id, data, now)
    {
      if AlignedLength(|data|) == 0 {
        return;
      }
      var key := SourceKey(id);
      var source := Entry(playbackSources, key, now);
      if |source.frames| >= MAX_SOURCE_BUFFER_FRAMES {
        source := TrimOneByOne(source);
      }
      source := source.(frames := source.frames + [FrameOf(data)], pushed := source.pushed + [FrameOf(data)],
                        lastSeen := now);
      playbackSources := playbackSources[key := source];
      CleanupIdleSources(now);
    }

    method TrimOneByOne(s: Source) returns (source: Source)
      requires |s.frames| >= MAX_SOURCE_BUFFER_FRAMES
      ensures source == Trim(s)
    {
      source := s;
      while |source.frames| > TARGET_SOURCE_BUFFER_FRAMES
        invariant TARGET_SOURCE_BUFFER_FRAMES <= |source.frames| <= |s.frames|
        invariant var removed := |s.frames| - |source.frames|;
          source == s.(frames := s.frames[removed..], trimmed := s.trimmed + removed)
        decreases |source.frames|
      {
        source := source.(frames := source.frames[1..], trimmed := source.trimmed + 1);
      }
    }

    /** `GetMaxBufferedFramesLocked`: the length of the longest queue. */
    method MaxBuffered() returns (most: nat)
      ensures forall k :: k in playbackSources ==> |playbackSources[k].frames| <= most
      ensures most > 0 ==> exists k :: k in playbackSources && |playbackSources[k].frames| == most
      ensures most >= STARTUP_BUFFER_FRAMES <==> StartupReady(playbackSources)
    {
      most := 0;
      var todo := playbackSources.Keys;
      while todo != {}
        invariant todo <= playbackSources.Keys
        invariant forall k :: k in playbackSources && k !in todo ==> |playbackSources[k].frames| <= most
        invariant most > 0 ==> exists k :: k in playbackSources && |playbackSources[k].frames| == most
        decreases |todo|
      {
        var key :| key in todo;
        todo := todo - {key};
        if |playbackSources[key].frames| > most {
          most := |playbackSources[key].frames|;
        }
      }
    }

    /** The buffer taken, or their number when none is free. */
    method AcquireFreeOutputBuffer() returns (index: nat)
      modifies outBufferFree
      ensures index == FirstFree(old(outBufferFree[..]))
      ensures outBufferFree[..]
           == if index < outBufferFree.Length then old(outBufferFree[..])[index := false] else old(outBufferFree[..])
    {
      for i := 0 to outBufferFree.Length
        invariant forall k :: 0 <= k < i ==> !outBufferFree[k]
        invariant outBufferFree[..] == old(outBufferFree[..])
      {
        if outBufferFree[i] {
          FirstFreeIs(outBufferFree[..], i);
          outBufferFree[i] := false;
          return i;
        }
      }
      FirstFreeIs(outBufferFree[..], outBufferFree.Length);
      return outBufferFree.Length;
    }

    /** One source gives its oldest frame, if it has one; empty and idle, it goes. */
    method MixOneSource(key: string, now: int) returns (gave: bool)
      requires key in playbackSources
      modifies `playbackSources
      ensures gave <==> old(playbackSources)[key].frames != []
      ensures playbackSources == MixOne(old(playbackSources), key, now)
    {
      var source := playbackSources[key];
      if source.frames == [] {
        if Idle(source, now) {
          playbackSources := playbackSources - {key};
        }
        return false;
      }
      source := PopFront(source);
      playbackSources := playbackSources[key := source];
      if Idle(source, now) {
        playbackSources := playbackSources - {key};
      }
      return true;
    }

    /** One pass over the sources in whatever order the table has them. */
    method MixNextFrame(now: int, audible: set<string>) returns (consumed: bool, contributors: nat)
      modifies `playbackSources
      ensures playbackSources == MixSources(old(playbackSources), now)
      ensures consumed <==> Givers(old(playbackSources)) != {}
      ensures contributors == |Givers(old(playbackSources)) * audible|
    {
      consumed, contributors := false, 0;
      ghost var before := playbackSources;
      var todo := playbackSources.Keys;
      assert Givers(before) - todo == {};
      while todo != {}
        invariant PartlyMixed(playbackSources, before, todo, now)
        invariant consumed <==> Givers(before) - todo != {}
        invariant contributors == |(Givers(before) - todo) * audible|
        decreases |todo|
      {
        var key :| key in todo;
        MixStep(playbackSources, before, todo, key, now);
        GiverCounted(Givers(before), todo, key, audible);
        var gave := MixOneSource(key, now);
        todo := todo - {key};
        consumed := consumed || gave;
        contributors := contributors + if gave && key in audible then 1 else 0;
      }
      MixDone(playbackSources, before, now);
      assert Givers(before) - todo == Givers(before);
    }

    /** Counts the mix as heard or as an underrun, and keeps the buffer unless the worker goes back to buffering. */
    method Account(index: nat, hasAudio: bool, contributors: nat)
      requires index < outBufferFree.Length && inHand == None
      modifies this, outBufferFree
      ensures Value() == Accounted(old(Value()), index, hasAudio, contributors > 0)
    {
      if hasAudio {
        consecutiveUnderruns, playbackHoldFrames := 0, 0;
        hasLastPlaybackFrame := hasLastPlaybackFrame || contributors > 0;
        made := made + [Mixed];
      } else {
        consecutiveUnderruns := consecutiveUnderruns + 1;
        if consecutiveUnderruns >= OUTPUT_BUFFER_COUNT {
          playbackPrimed := false;
          outBufferFree[index] := true;
          return;
        }
        if hasLastPlaybackFrame && playbackHoldFrames < MAX_CONCEALMENT_FRAMES {
          playbackHoldFrames := playbackHoldFrames + 1;
          made := made + [Concealed];
        } else {
          made := made + [Silent];
        }
      }
      inHand := Some(index);
    }

    method HasFreeOutputBuffer() returns (free: bool)
      ensures free <==> FirstFree(outBufferFree[..]) < outBufferFree.Length
    {
      for i := 0 to outBufferFree.Length
        invariant forall k :: 0 <= k < i ==> !outBufferFree[k]
      {
        if outBufferFree[i] {
          FirstFreeIs(outBufferFree[..], FirstFree(outBufferFree[..]));
          return true;
        }
      }
      FirstFreeIs(outBufferFree[..], outBufferFree.Length);
      return false;
    }

    method PlaybackTurn(now: int, mixNow: int, audible: set<string>)
      modifies this, outBufferFree
      ensures Value() == WorkerTurn(old(Value()), now, mixNow, audible)
    {
      var free := HasFreeOutputBuffer();
      var most := MaxBuffered();
      if inHand.Some? || !free || !(playbackPrimed || most >= STARTUP_BUFFER_FRAMES) {
        return;
      }
      CleanupIdleSources(now);
      var index := AcquireFreeOutputBuffer();
      playbackPrimed := true;
      var hasAudio, contributors := MixNextFrame(mixNow, audible);
      Account(index, hasAudio, contributors);
    }

    method Submit(accepted: bool)
      modifies this, outBufferFree
      ensures Value() == SubmitOutputBuffer(old(Value()), accepted)
    {
      if inHand.None? || inHand.value >= outBufferFree.Length {
        return;
      }
      if accepted {
        events := events + [Write(inHand.value)];
      } else {
        outBufferFree[inHand.value] := true;
      }
      inHand := None;
    }

    method Release(i: nat)
      modifies this, outBufferFree
      ensures Value() ==
        if i >= outBufferFree.Length then old(Value())
        else old(Value()).(free := old(outBufferFree[..])[i := true], events := old(events) + [Done(i)])
      ensures OnDevice(old(events), i) ==> Value() == ReleaseOutputBuffer(old(Value()), i)
    {
      if i < outBufferFree.Length {
        outBufferFree[i] := true;
        events := events + [Done(i)];
      }
    }
  }

  ghost predicate PartlyMixed(
      sources: map<string, Source>, before: map<string, Source>, todo: set<string>, now: int) {
    && todo <= sources.Keys <= before.Keys
    && (forall k :: k in todo ==> sources[k] == before[k])
    && (forall k :: k in before && k !in todo ==>
          if Idle(PopFront(before[k]), now) then k !in sources
          else k in sources && sources[k] == PopFront(before[k]))
  }

  lemma MixStep(sources: map<string, Source>, before: map<string, Source>, todo: set<string>, key: string, now: int)
    requires PartlyMixed(sources, before, todo, now) && key in todo
    ensures PartlyMixed(MixOne(sources, key, now), before, todo - {key}, now)
    ensures sources[key].frames != [] <==> key in Givers(before)
  {
  }

  lemma MixDone(sources: map<string, Source>, before: map<string, Source>, now: int)
    requires PartlyMixed(sources, before, {}, now)
    ensures sources == MixSources(before, now)
  {
  }

  lemma GiverCounted(givers: set<string>, todo: set<string>, key: string, audible: set<string>)
    requires key in todo
    ensures givers - (todo - {key}) != {} <==> givers - todo != {} || key in givers
    ensures |(givers - (todo - {key})) * audible|
         == |(givers - todo) * audible| + if key in givers && key in audible then 1 else 0
  {
    var more := if key in givers then {key} else {};
    assert givers - (todo - {key}) == (givers - todo) + more;
    assert ((givers - todo) + more) * audible == (givers - todo) * audible + more * audible;
    assert more * audible == if key in givers && key in audible then {key} else {};
  }

  lemma {:induction false} FirstFreeIs(free: seq<bool>, i: nat)
    requires i <= |free| && (i < |free| ==> free[i])
    requires forall k :: 0 <= k < i ==> !free[k]
    ensures FirstFree(free) == i
  {
  }
}
