/**
 * What each step of the playback engine does, over every run and in the source's own numbers: which bytes a packet adds
 * to which queue, when the worker acts and what it makes, and where a buffer goes.
 */
module PlaybackTurns {
  import opened Wrappers
  import opened Bytes
  import opened Playback
  import opened PlaybackRuns

  // ---------------------------------------------------------------- packets

  /** How many bytes of a packet are used: whole samples of two bytes, 960 bytes at most. */
  function Used(data: seq<byte>): nat {
    var whole := |data| - |data| % 2;
    if whole < 960 then whole else 960
  }

  /** The bytes that came, then silence. */
  ghost predicate CarriesPacket(frame: Frame, data: seq<byte>) {
    && |frame| == 960 && frame[..Used(data)] == data[..Used(data)]
    && forall i :: Used(data) <= i < 960 ==> frame[i] == 0
  }

  /** What a queue keeps when a frame comes: all of it, or the newest six of a full one. */
  function KeptFrames(frames: seq<Frame>): seq<Frame> {
    if |frames| < 18 then frames else frames[|frames| - 6..]
  }

  /** The queue of `key` is what it kept and then the packet's frame; the entry counts as heard now. */
  ghost predicate FrameQueued(p: Player, q: Player, key: string, data: seq<byte>, now: int) {
    && key in q.sources
    && var before := if key in p.sources then p.sources[key].frames else [];
       var s := q.sources[key];
       && s.frames != [] && s.lastSeen == now
       && s.frames[..|s.frames| - 1] == KeptFrames(before)
       && CarriesPacket(s.frames[|s.frames| - 1], data)
       && s.pushed != [] && s.pushed[|s.pushed| - 1] == s.frames[|s.frames| - 1]
       && s.pushed[..|s.pushed| - 1] == if key in p.sources then p.sources[key].pushed else []
  }

  /** Another source stays as it is, or was empty and unheard for more than three seconds and goes. */
  ghost predicate StaysOrIsIdle(p: Player, q: Player, other: string, now: int) {
    && (other in q.sources ==> other in p.sources && q.sources[other] == p.sources[other])
    && (other in p.sources && other !in q.sources <==>
          other in p.sources && p.sources[other].frames == [] && now - p.sources[other].lastSeen > 3000)
  }

  lemma FrameCarries(data: seq<byte>)
    ensures CarriesPacket(FrameOf(data), data)
  {
    var n, f := Used(data), FrameOf(data);
    assert f[..n] == data[..n];
  }

  lemma AppendKeepsRest(s: Source, frame: Frame, now: int)
    ensures var a := Append(s, frame, now);
      && a.frames == KeptFrames(s.frames) + [frame] && a.pushed == s.pushed + [frame] && a.lastSeen == now
  {
  }

  lemma CleanupLeaves(sources: map<string, Source>, now: int, key: string)
    ensures var kept := Cleanup(sources, now);
      && (key in kept <==> key in sources && !(sources[key].frames == [] && now - sources[key].lastSeen > 3000))
      && (key in kept ==> kept[key] == sources[key])
  {
  }

  lemma PlayedInto(p: Player, id: string, data: seq<byte>, now: int)
    ensures
      var key := if id == "" then "default" else id;
      var before := if key in p.sources then p.sources[key] else Source([], now, [], [], 0);
      var q := Do(p, Push(id, data, now));
      if |data| < 2 then q == p
      else q == p.(sources := Cleanup(p.sources[key := Append(before, FrameOf(data), now)], now))
  {
    hide FrameOf, Append, Cleanup;
  }

  /** A packet's bytes become the newest frame of its source, and nothing else changes; a packet without a whole sample
    * changes nothing. */
  lemma PacketIsQueued(p: Player, id: string, data: seq<byte>, now: int)
    ensures
      var key := if id == "" then "default" else id;
      var q := Do(p, Push(id, data, now));
      if |data| < 2 then q == p
      else
        && q == p.(sources := q.sources) && FrameQueued(p, q, key, data, now)
        && forall other :: other != key ==> StaysOrIsIdle(p, q, other, now)
  {
    hide FrameOf, Append, CarriesPacket, Cleanup, PlayFrame;
    PlayedInto(p, id, data, now);
    if |data| >= 2 {
      var key := if id == "" then "default" else id;
      var before := if key in p.sources then p.sources[key] else Source([], now, [], [], 0);
      var sources := p.sources[key := Append(before, FrameOf(data), now)];
      FrameCarries(data);
      AppendKeepsRest(before, FrameOf(data), now);
      CleanupLeaves(sources, now, key);
      forall other | other != key ensures StaysOrIsIdle(p, Do(p, Push(id, data, now)), other, now) {
        CleanupLeaves(sources, now, other);
      }
    }
  }

  // ---------------------------------------------------------------- when the worker acts

  /** No buffer is in its hand, one is free, and playback runs or some source has six frames. */
  ghost predicate Ready(p: Player) {
    && p.inHand == None && (exists i :: 0 <= i < |p.free| && p.free[i])
    && (p.primed || exists k :: k in p.sources && |p.sources[k].frames| >= 6)
  }

  lemma ReadyIff(p: Player)
    ensures CanTake(p) <==> Ready(p)
  {
  }

  /** Buffer `i` is the lowest free one. */
  ghost predicate Lowest(free: seq<bool>, i: nat) {
    i < |free| && free[i] && forall k :: 0 <= k < i ==> !free[k]
  }

  ghost predicate SomeFrame(p: Player) {
    exists k :: k in p.sources && p.sources[k].frames != []
  }

  ghost predicate SomeAudible(p: Player, audible: set<string>) {
    exists k :: k in p.sources && p.sources[k].frames != [] && k in audible
  }

  /** Since playback was last started, some turn has mixed a frame of an audible source. */
  ghost predicate Heard(steps: seq<Step>) {
    if steps == [] then false
    else
      var init, last := steps[..|steps| - 1], steps[|steps| - 1];
      if last.Restart? then false
      else (last.Turn? && Ready(Execute(init)) && SomeAudible(Execute(init), last.audible)) || Heard(init)
  }

  lemma GiversAreThere(p: Player, now: int, audible: set<string>)
    ensures Givers(Cleanup(p.sources, now)) != {} <==> SomeFrame(p)
    ensures Givers(Cleanup(p.sources, now)) * audible != {} <==> SomeAudible(p, audible)
  {
    var givers := Givers(Cleanup(p.sources, now));
    if SomeFrame(p) {
      var k :| k in p.sources && p.sources[k].frames != [];
      assert k in givers;
    }
    if SomeAudible(p, audible) {
      var k :| k in p.sources && p.sources[k].frames != [] && k in audible;
      assert k in givers * audible;
    }
  }

  lemma {:induction false} HeardIsRemembered(steps: seq<Step>)
    ensures Execute(steps).hasLast <==> Heard(steps)
  {
    hide Ready, SomeAudible, CanTake, Givers, Cleanup, MixSources, PlayFrame;
    if steps != [] {
      var init, last := steps[..|steps| - 1], steps[|steps| - 1];
      HeardIsRemembered(init);
      ReadyIff(Execute(init));
      match last
      case Turn(now, mixNow, audible) => TurnHears(Execute(init), now, mixNow, audible);
      case Push(id, data, now) => PushHearsNothing(Execute(init), id, data, now);
      case _ =>
    }
  }

  lemma PushHearsNothing(p: Player, id: string, data: seq<byte>, now: int)
    ensures PlayFrame(p, id, data, now).hasLast == p.hasLast
  {
  }

  lemma TurnHears(p: Player, now: int, mixNow: int, audible: set<string>)
    ensures WorkerTurn(p, now, mixNow, audible).hasLast <==> p.hasLast || (CanTake(p) && SomeAudible(p, audible))
  {
    hide CanTake, SomeAudible, SomeFrame;
    GiversAreThere(p, now, audible);
    if Givers(Cleanup(p.sources, now)) * audible != {} {
      assert Givers(Cleanup(p.sources, now)) != {};
    }
  }

  // ---------------------------------------------------------------- what a turn makes

  /**
   * In every run: a turn of the worker does nothing until it is ready. Then it takes the lowest free buffer and makes
   * a mix if any source has a frame. If none has, the twelfth frame in a row gives the buffer back and returns to
   * buffering; before that it repeats what was last heard, twice at most since the last mix, and then makes silence.
   */
  lemma TurnMakes(steps: seq<Step>, now: int, mixNow: int, audible: set<string>, i: nat)
    requires Ready(Execute(steps)) ==> Lowest(Execute(steps).free, i)
    ensures
      var p := Execute(steps);
      var q := Do(p, Turn(now, mixNow, audible));
      && q.events == p.events
      && if !Ready(p) then q == p
         else if !SomeFrame(p) && Gap(p.made) == 11 then
           !q.primed && q.inHand == None && q.free == p.free && q.made == p.made
         else
           && q.primed && q.inHand == Some(i) && q.free == p.free[i := false]
           && q.made == p.made + [if SomeFrame(p) then Mixed
                                  else if Heard(steps) && Repeats(p.made) < 2 then Concealed else Silent]
  {
    var p := Execute(steps);
    ReachableInv(steps);
    ReadyIff(p);
    HeardIsRemembered(steps);
    GiversAreThere(p, now, audible);
    if Ready(p) {
      LowestIsFirst(p.free, i);
      assert !p.primed ==> SomeFrame(p) by {
        ManyAreSome(p);
      }
      assert p.free[i := false][i := true] == p.free;
      TurnAt(p, now, mixNow, audible, i);
    }
  }

  lemma ManyAreSome(p: Player)
    ensures (exists k :: k in p.sources && |p.sources[k].frames| >= 6) ==> SomeFrame(p)
  {
  }

  lemma LowestIsFirst(free: seq<bool>, i: nat)
    requires Lowest(free, i)
    ensures FirstFree(free) == i
  {
  }

  lemma TurnAt(p: Player, now: int, mixNow: int, audible: set<string>, i: nat)
    requires CanTake(p) && FirstFree(p.free) == i && GapsInv(p) && (!SomeFrame(p) ==> p.primed)
    requires p.free[i := false][i := true] == p.free
    ensures
      var q := WorkerTurn(p, now, mixNow, audible);
      && q.events == p.events
      && if !SomeFrame(p) && Gap(p.made) == 11 then
           !q.primed && q.inHand == None && q.free == p.free && q.made == p.made
         else
           && q.primed && q.inHand == Some(i) && q.free == p.free[i := false]
           && q.made == p.made + [if SomeFrame(p) then Mixed
                                  else if p.hasLast && Repeats(p.made) < 2 then Concealed else Silent]
  {
    hide ShortGaps, Gap, Repeats, MixSources, Cleanup, Givers, SomeFrame;
    GiversAreThere(p, now, audible);
  }

  // ---------------------------------------------------------------- where a buffer goes

  /** A buffer that is submitted goes to the device, or is free again if the device refuses it; nothing else changes. */
  lemma SubmittedIsWritten(steps: seq<Step>, accepted: bool)
    ensures
      var p := Execute(steps);
      var q := Do(p, Submit(accepted));
      if p.inHand == None then q == p
      else if accepted then q == p.(inHand := None, events := p.events + [Write(p.inHand.value)])
      else p.inHand.value < |p.free| && q == p.(inHand := None, free := p.free[p.inHand.value := true])
  {
    ReachableInv(steps);
  }

  /** The device's done event frees the buffer it was given, and no other. */
  lemma DoneIsFree(steps: seq<Step>, i: nat)
    ensures
      var p := Execute(steps);
      var q := Do(p, DeviceDone(i));
      if OnDevice(p.events, i) then
        i < 12 == |p.free| && q == p.(free := p.free[i := true], events := p.events + [Done(i)])
      else q == p
  {
    ReachableInv(steps);
    if OnDevice(Execute(steps).events, i) {
      WrittenIsBuffer(steps, i);
    }
  }

  /** Only the twelve buffers are ever written. */
  lemma {:induction false} WrittenIsBuffer(steps: seq<Step>, i: nat)
    requires OnDevice(Execute(steps).events, i)
    ensures i < 12
  {
    var init, last := steps[..|steps| - 1], steps[|steps| - 1];
    var p := Execute(init);
    ReachableInv(init);
    if OnDevice(p.events, i) {
      WrittenIsBuffer(init, i);
    } else {
      match last
      case Turn(now, mixNow, audible) => TurnKeepsBuffers(p, now, mixNow, audible);
      case Submit(accepted) =>
        if p.inHand.Some? {
          OneEventMore(p.events, Write(p.inHand.value));
        }
      case DeviceDone(k) => OneEventMore(p.events, Done(k));
      case _ =>
    }
  }
}
