/**
 * What the signalling server answers, over every run: only who has registered is heard by others, under the id it
 * registered last; everything else is refused to the sender alone.
 */
module SignallingAnswers {
  import opened Wrappers
  import opened Framing
  import opened SignallingServer
  import opened SignallingRuns

  // ---------------------------------------------------------------- who is registered, by history

  /** Step `k` registered `c` under `id`, and no later one registered it anew. */
  ghost predicate LastRegistered(steps: seq<Step>, k: nat, c: nat, id: string) {
    && k < |steps| && Registers(Execute(steps[..k]), steps[k], c) && steps[k].cmd[9..] == id
    && forall j :: k < j < |steps| ==> !Registers(Execute(steps[..j]), steps[j], c)
  }

  ghost predicate EverRegistered(steps: seq<Step>, c: nat) {
    exists k :: 0 <= k < |steps| && Registers(Execute(steps[..k]), steps[k], c)
  }

  lemma PrefixesAgree(steps: seq<Step>, c: nat, id: string, k: nat)
    requires steps != [] && k < |steps| - 1
    ensures var init := steps[..|steps| - 1];
      LastRegistered(steps, k, c, id) <==>
        LastRegistered(init, k, c, id) && !Registers(Execute(init), steps[|steps| - 1], c)
  {
    hide Execute, Registers;
    var init := steps[..|steps| - 1];
    assert forall j :: 0 <= j <= |init| ==> init[..j] == steps[..j];
  }

  lemma LastStepRegistered(steps: seq<Step>, c: nat, id: string)
    requires steps != []
    ensures var init, last := steps[..|steps| - 1], steps[|steps| - 1];
      LastRegistered(steps, |init|, c, id) <==> Registers(Execute(init), last, c) && last.cmd[9..] == id
  {
  }

  /** What a step does to a record. */
  lemma StepRecords(r: Registry<nat>, s: Step, c: nat)
    requires Inv(r)
    ensures var q := Do(r, s);
      && (c in r.known ==> c in q.known)
      && (c in q.known && q.known[c].isRegistered <==>
            Registers(r, s, c) || (c in r.known && r.known[c].isRegistered))
      && (Registers(r, s, c) ==> q.known[c] == Client(s.cmd[9..], true))
      && (!Registers(r, s, c) && c in r.known ==> q.known[c] == r.known[c])
  {
    match s
    case Arrive(d) =>
    case Command(d, cmd) =>
      if d in r.known && !("REGISTER " <= cmd) {
        OtherCommandsKeep(r, d, cmd);
      }
    case Leave(d) =>
  }

  lemma OtherCommandsKeep(r: Registry<nat>, c: nat, cmd: string)
    requires c in r.known && !("REGISTER " <= cmd)
    ensures ProcessCommand(r, c, cmd) == (r, SignallingServer.Answer(r, c, cmd))
  {
  }

  /** A record says that its connection is registered under an id exactly when that was its last accepted REGISTER. */
  lemma {:induction false} RecordIff(steps: seq<Step>, c: nat, id: string)
    ensures var r := Execute(steps);
      c in r.known && r.known[c] == Client(id, true) <==> exists k :: LastRegistered(steps, k, c, id)
  {
    hide LastRegistered, Do, Registers;
    if steps == [] {
      NobodyLast(c, id);
    } else {
      var init, last := steps[..|steps| - 1], steps[|steps| - 1];
      RecordIff(init, c, id);
      ReachableInv(init);
      StepRecords(Execute(init), last, c);
      LastStepRegistered(steps, c, id);
      forall k: nat | k < |init|
        ensures LastRegistered(steps, k, c, id) <==>
                LastRegistered(init, k, c, id) && !Registers(Execute(init), last, c)
      {
        PrefixesAgree(steps, c, id, k);
      }
      forall k: nat | LastRegistered(steps, k, c, id) ensures k < |steps| {
        LastInside(steps, k, c, id);
      }
      forall k: nat | LastRegistered(init, k, c, id) ensures k < |init| {
        LastInside(init, k, c, id);
      }
    }
  }

  lemma NobodyLast(c: nat, id: string)
    ensures c !in Execute([]).known && forall k :: !LastRegistered([], k, c, id)
  {
  }

  lemma LastInside(steps: seq<Step>, k: nat, c: nat, id: string)
    requires LastRegistered(steps, k, c, id)
    ensures k < |steps|
  {
  }

  lemma {:induction false} RegisteredIff(steps: seq<Step>, c: nat)
    ensures var r := Execute(steps); c in r.known && r.known[c].isRegistered <==> EverRegistered(steps, c)
  {
    hide Do, Registers;
    if steps != [] {
      var init, last := steps[..|steps| - 1], steps[|steps| - 1];
      RegisteredIff(init, c);
      ReachableInv(init);
      StepRecords(Execute(init), last, c);
      assert forall j :: 0 <= j <= |init| ==> init[..j] == steps[..j];
      if EverRegistered(init, c) {
        var k :| 0 <= k < |init| && Registers(Execute(init[..k]), init[k], c);
        assert Registers(Execute(steps[..k]), steps[k], c);
      }
      assert Registers(Execute(init), last, c) ==> Registers(Execute(steps[..|init|]), steps[|init|], c);
    }
  }

  /** A connection is known once it has arrived; it is listed until it first leaves after that, and never again. */
  lemma {:induction false} ListedIff(steps: seq<Step>, c: nat)
    ensures c in Execute(steps).known <==> Arrive(c) in steps
    ensures c in Execute(steps).clients <==>
      Arrive(c) in steps && forall j :: 0 <= j < |steps| && steps[j] == Leave(c) ==> Arrive(c) !in steps[..j]
  {
    if steps != [] {
      var init, last := steps[..|steps| - 1], steps[|steps| - 1];
      ListedIff(init, c);
      StepLists(Execute(init), last, c);
      assert steps == init + [last];
      assert forall j :: 0 <= j < |init| ==> init[j] == steps[j] && init[..j] == steps[..j];
      assert steps[..|init|] == init;
    }
  }

  lemma StepLists(r: Registry<nat>, s: Step, c: nat)
    ensures c in Do(r, s).known <==> c in r.known || s == Arrive(c)
    ensures c in Do(r, s).clients <==>
      (c in r.clients && (s == Leave(c) ==> c !in r.known)) || (s == Arrive(c) && c !in r.known)
  {
    match s
    case Leave(d) => WithoutHolds(r.clients, d);
    case _ =>
  }

  // ---------------------------------------------------------------- what others hear

  ghost predicate Says(text: string, verb: string, me: string, rest: string) {
    && verb in {"CANDIDATE", "OFFER", "ANSWER", "OFFER_DECLINED", "SERVER_MSG"}
    && text == verb + " " + me + rest && rest != "" && (rest == "\n" || rest[0] == ' ')
  }

  /** A line that another connection gets names `me` as its sender. */
  ghost predicate Names(text: string, me: string) {
    exists verb, rest :: Says(text, verb, me, rest)
  }

  lemma RelayNames(r: Registry<nat>, target: string, verb: string, me: string, rest: string)
    requires Says(verb + " " + me + rest, verb, me, rest)
    ensures forall o :: o in Relay(r, target, verb + " " + me + rest) ==>
      o.Line? && target in r.ids && o.dest == r.ids[target] && Names(o.text, me)
  {
  }

  ghost predicate Relayed(r: Registry<nat>, c: nat, o: Out<nat>)
    requires c in r.known
  {
    o.dest == c || (o.Line? && (exists id :: id in r.ids && r.ids[id] == o.dest) && Names(o.text, r.known[c].clientId))
  }

  lemma PayloadIsRelayed(r: Registry<nat>, c: nat, args: string, verb: string, complaint: string)
    requires c in r.known && verb in {"CANDIDATE", "SERVER_MSG"}
    ensures forall o :: o in RelayPayload(r, c, args, verb + " ", complaint) ==> Relayed(r, c, o)
  {
    match AfterSpace(args)
    case None =>
    case Some((target, payload)) =>
      var me, rest := r.known[c].clientId, " " + payload + "\n";
      assert verb + " " + me + " " + payload + "\n" == verb + " " + me + rest;
      assert Says(verb + " " + me + rest, verb, me, rest);
      RelayNames(r, target, verb, me, rest);
  }

  lemma SignalIsRelayed(r: Registry<nat>, c: nat, target: string, verb: string)
    requires c in r.known && verb in {"OFFER", "ANSWER", "OFFER_DECLINED"}
    ensures forall o :: o in Relay(r, target, verb + " " + r.known[c].clientId + "\n") ==> Relayed(r, c, o)
  {
    var me := r.known[c].clientId;
    assert Says(verb + " " + me + "\n", verb, me, "\n");
    RelayNames(r, target, verb, me, "\n");
  }

  lemma AnswerIsRelayed(r: Registry<nat>, c: nat, cmd: string)
    requires c in r.known
    ensures forall o :: o in SignallingServer.Answer(r, c, cmd) ==> Relayed(r, c, o)
  {
    hide Relayed, RelayPayload, Relay;
    var me := r.known[c].clientId;
    assert "CANDIDATE" + " " == "CANDIDATE " && "SERVER_MSG" + " " == "SERVER_MSG ";
    assert "OFFER" + " " + me + "\n" == "OFFER " + me + "\n";
    assert "ANSWER" + " " + me + "\n" == "ANSWER " + me + "\n";
    assert "OFFER_DECLINED" + " " + me + "\n" == "OFFER_DECLINED " + me + "\n";
    if "CANDIDATE " <= cmd {
      PayloadIsRelayed(r, c, cmd[10..], "CANDIDATE", "ERROR Malformed CANDIDATE\n");
    }
    if "CHAT " <= cmd {
      PayloadIsRelayed(r, c, cmd[5..], "SERVER_MSG", "ERROR Malformed CHAT\n");
    }
    if "OFFER " <= cmd {
      SignalIsRelayed(r, c, cmd[6..], "OFFER");
    }
    if "ANSWER " <= cmd {
      SignalIsRelayed(r, c, cmd[7..], "ANSWER");
    }
    if "OFFER_DECLINED " <= cmd {
      SignalIsRelayed(r, c, cmd[15..], "OFFER_DECLINED");
    }
    OwnAnswers(r, c);
  }

  lemma OwnAnswers(r: Registry<nat>, c: nat)
    requires c in r.known
    ensures forall o: Out<nat> :: o.dest == c ==> Relayed(r, c, o)
  {
  }

  /** In every run, whatever the command: a line for another connection goes to one that is found under some id, and
    * names as its sender the id that the sender's last accepted REGISTER gave it. */
  lemma OnlyRegisteredAreHeard(steps: seq<Step>, c: nat, cmd: string, o: Out<nat>)
    requires c in Execute(steps).known && o in ProcessCommand(Execute(steps), c, cmd).1 && o.dest != c
    ensures o.Line? && exists id :: Mapped(Execute(steps).ids, id, o.dest)
    ensures exists k, id :: LastRegistered(steps, k, c, id) && Names(o.text, id)
  {
    hide LastRegistered, Names;
    var r := Execute(steps);
    var id := r.known[c].clientId;
    if "REGISTER " <= cmd {
      RegisterAnswersSender(r, c, cmd);
    } else {
      OtherCommandsKeep(r, c, cmd);
      AnswerIsRelayed(r, c, cmd);
      HeardIsRegistered(r, c, cmd, o);
      RecordIff(steps, c, id);
      var target :| target in r.ids && r.ids[target] == o.dest;
      assert Mapped(r.ids, target, o.dest);
    }
  }

  lemma RegisterAnswersSender(r: Registry<nat>, c: nat, cmd: string)
    requires c in r.known && "REGISTER " <= cmd
    ensures forall o :: o in ProcessCommand(r, c, cmd).1 ==> o.dest == c
  {
  }

  lemma HeardIsRegistered(r: Registry<nat>, c: nat, cmd: string, o: Out<nat>)
    requires c in r.known && o in SignallingServer.Answer(r, c, cmd) && o.dest != c
    ensures r.known[c] == Client(r.known[c].clientId, true)
  {
  }

  /** In every run: before its first accepted REGISTER a connection gets one error line for anything else, nobody else
    * gets anything, and the registry stays as it is. */
  lemma UnregisteredIsRefused(steps: seq<Step>, c: nat, cmd: string)
    requires c in Execute(steps).known && !EverRegistered(steps, c) && !("REGISTER " <= cmd)
    ensures ProcessCommand(Execute(steps), c, cmd) == (Execute(steps), [Line(c, "ERROR Register first\n")])
  {
    RegisteredIff(steps, c);
  }

  // ---------------------------------------------------------------- what a registered connection is answered

  /** No connection has registered under the id, or what it did is over. */
  ghost predicate Nobody(steps: seq<Step>, id: string) {
    forall c, k :: !RegisteredAt(steps, k, c, id)
  }

  lemma NobodyIsFound(steps: seq<Step>, id: string)
    ensures Nobody(steps, id) <==> id !in Execute(steps).ids
  {
    hide RegisteredAt;
    var r := Execute(steps);
    if id in r.ids {
      MappedIff(steps, id, r.ids[id]);
    }
    forall c: nat ensures Mapped(r.ids, id, c) <==> exists k :: RegisteredAt(steps, k, c, id) {
      MappedIff(steps, id, c);
    }
    if !Nobody(steps, id) {
      var c: nat, k: nat :| RegisteredAt(steps, k, c, id);
      assert Mapped(r.ids, id, c);
    }
  }

  predicate Plain(cmd: string, target: string) {
    cmd == "OFFER " + target || cmd == "ANSWER " + target || cmd == "OFFER_DECLINED " + target
  }

  /** A line for an id that leads to nobody is dropped without an answer. */
  lemma LineForNobodyIsDropped(steps: seq<Step>, c: nat, cmd: string, target: string, payload: string)
    requires c in Execute(steps).known && EverRegistered(steps, c) && Nobody(steps, target)
    requires Plain(cmd, target) || (' ' !in target && (cmd == "CANDIDATE " + target + " " + payload
                                                      || cmd == "CHAT " + target + " " + payload))
    ensures ProcessCommand(Execute(steps), c, cmd) == (Execute(steps), [])
  {
    hide Nobody, EverRegistered;
    NobodyIsFound(steps, target);
    RegisteredIff(steps, c);
    if Plain(cmd, target) {
      SignalDropped(Execute(steps), c, cmd, target);
    } else {
      PayloadDropped(Execute(steps), c, cmd, target, payload);
    }
  }

  lemma SignalDropped(r: Registry<nat>, c: nat, cmd: string, target: string)
    requires c in r.known && r.known[c].isRegistered && target !in r.ids && Plain(cmd, target)
    ensures ProcessCommand(r, c, cmd) == (r, [])
  {
    if cmd == "OFFER " + target {
      assert cmd[..6] == "OFFER " && cmd[0] == 'O' && cmd[5] == ' ' && cmd[6..] == target;
    } else if cmd == "ANSWER " + target {
      assert cmd[..7] == "ANSWER " && cmd[0] == 'A' && cmd[7..] == target;
    } else {
      assert cmd[..15] == "OFFER_DECLINED " && cmd[0] == 'O' && cmd[5] == '_' && cmd[15..] == target;
    }
  }

  lemma CandidateArgs(r: Registry<nat>, c: nat, args: string)
    requires c in r.known && r.known[c].isRegistered
    ensures ProcessCommand(r, c, "CANDIDATE " + args)
         == (r, RelayPayload(r, c, args, "CANDIDATE ", "ERROR Malformed CANDIDATE\n"))
  {
    hide RelayPayload;
    var cmd := "CANDIDATE " + args;
    assert cmd[..10] == "CANDIDATE " && cmd[0] == 'C' && cmd[10..] == args;
  }

  lemma ChatArgs(r: Registry<nat>, c: nat, args: string)
    requires c in r.known && r.known[c].isRegistered
    ensures ProcessCommand(r, c, "CHAT " + args)
         == (r, RelayPayload(r, c, args, "SERVER_MSG ", "ERROR Malformed CHAT\n"))
  {
    hide RelayPayload;
    var cmd := "CHAT " + args;
    assert cmd[..5] == "CHAT " && cmd[0] == 'C' && cmd[1] == 'H' && cmd[5..] == args;
  }

  lemma PayloadDropped(r: Registry<nat>, c: nat, cmd: string, target: string, payload: string)
    requires c in r.known && r.known[c].isRegistered && target !in r.ids && ' ' !in target
    requires cmd == "CANDIDATE " + target + " " + payload || cmd == "CHAT " + target + " " + payload
    ensures ProcessCommand(r, c, cmd) == (r, [])
  {
    hide FirstOf, ProcessCommand;
    var args := target + " " + payload;
    SplitAtSpace(target, payload);
    assert "CANDIDATE " + args == "CANDIDATE " + target + " " + payload;
    assert "CHAT " + args == "CHAT " + target + " " + payload;
    CandidateArgs(r, c, args);
    ChatArgs(r, c, args);
  }

  /** A registered connection that does not say what it wants is told so, and only it. */
  lemma MalformedIsRefused(steps: seq<Step>, c: nat, args: string)
    requires c in Execute(steps).known && EverRegistered(steps, c) && ' ' !in args
    ensures var r := Execute(steps);
      && ProcessCommand(r, c, "CANDIDATE " + args) == (r, [Line(c, "ERROR Malformed CANDIDATE\n")])
      && ProcessCommand(r, c, "CHAT " + args) == (r, [Line(c, "ERROR Malformed CHAT\n")])
  {
    hide FirstOf, ProcessCommand;
    RegisteredIff(steps, c);
    CandidateArgs(Execute(steps), c, args);
    ChatArgs(Execute(steps), c, args);
    FirstOfIs(args, ' ', |args|);
  }

  /** An id with a space in it, or none, is refused whoever asks. */
  lemma InvalidIdIsRefused(steps: seq<Step>, c: nat, id: string)
    requires c in Execute(steps).known && (id == "" || ' ' in id)
    ensures ProcessCommand(Execute(steps), c, "REGISTER " + id) == (Execute(steps), [Line(c, "ERROR Invalid ID\n")])
  {
    var cmd := "REGISTER " + id;
    assert cmd[..9] == "REGISTER " && cmd[9..] == id;
  }

  predicate KnownVerb(cmd: string) {
    || "REGISTER " <= cmd || "CANDIDATE " <= cmd || "OFFER " <= cmd || "ANSWER " <= cmd || "OFFER_DECLINED " <= cmd
    || "CHAT " <= cmd || cmd == "LIST"
  }

  lemma UnknownIsRefused(steps: seq<Step>, c: nat, cmd: string)
    requires c in Execute(steps).known && EverRegistered(steps, c) && !KnownVerb(cmd)
    ensures ProcessCommand(Execute(steps), c, cmd) == (Execute(steps), [Line(c, "ERROR Unknown command\n")])
  {
    RegisteredIff(steps, c);
  }

  /** The list holds exactly the ids under which other connections have registered and are still found. */
  lemma ListNamesTheOthers(steps: seq<Step>, c: nat)
    requires c in Execute(steps).known && EverRegistered(steps, c)
    ensures var (q, out) := ProcessCommand(Execute(steps), c, "LIST");
      && q == Execute(steps) && |out| == 1 && out[0].Users? && out[0].dest == c
      && forall id :: id in out[0].ids <==> exists d, k :: d != c && RegisteredAt(steps, k, d, id)
  {
    hide RegisteredAt;
    var r := Execute(steps);
    RegisteredIff(steps, c);
    ListAnswer(r, c);
    forall id ensures id in OtherIds(r, c) <==> exists d, k :: d != c && RegisteredAt(steps, k, d, id) {
      if id in OtherIds(r, c) {
        MappedIff(steps, id, r.ids[id]);
      }
      forall d: nat ensures Mapped(r.ids, id, d) <==> exists k :: RegisteredAt(steps, k, d, id) {
        MappedIff(steps, id, d);
      }
      if d: nat, k: nat :| d != c && RegisteredAt(steps, k, d, id) {
        assert Mapped(r.ids, id, d);
      }
    }
  }

  lemma ListAnswer(r: Registry<nat>, c: nat)
    requires c in r.known && r.known[c].isRegistered
    ensures ProcessCommand(r, c, "LIST") == (r, [Users(c, OtherIds(r, c))])
  {
  }
}
