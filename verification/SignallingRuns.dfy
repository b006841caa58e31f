/** The signalling path end to end: the registry over every run, and what a peer is told of what another one sent. */
module SignallingRuns {
  import opened Wrappers
  import opened Framing
  import opened SignallingServer
  import C = SignallingClient
  import T = CandidateText
  import Decimal

  datatype Step = Arrive(client: nat) | Command(client: nat, cmd: string) | Leave(client: nat)

  /** Commands and removals of one connection come in any order, even a command after the removal. */
  function Do(r: Registry<nat>, s: Step): Registry<nat> {
    match s
    case Arrive(c) => Connect(r, c)
    case Command(c, cmd) => if c in r.known then ProcessCommand(r, c, cmd).0 else r
    case Leave(c) => if c in r.known then Remove(r, c) else r
  }

  function Execute(steps: seq<Step>): Registry<nat> {
    if steps == [] then Empty() else Do(Execute(steps[..|steps| - 1]), steps[|steps| - 1])
  }

  // ---------------------------------------------------------------- the registry

  /** Every table entry names the record it points to. */
  ghost predicate EntriesAgree(r: Registry<nat>) {
    forall id :: id in r.ids ==> ValidId(id) && r.ids[id] in r.known && r.known[r.ids[id]] == Client(id, true)
  }

  /** Every registered connection that was not removed stands in the table under its own id. */
  ghost predicate ClientsMapped(r: Registry<nat>) {
    forall c :: c in r.clients ==> c in r.known && (r.known[c].isRegistered ==> Mapped(r.ids, r.known[c].clientId, c))
  }

  ghost predicate Records(r: Registry<nat>) {
    forall c :: c in r.known ==>
      if r.known[c].isRegistered then ValidId(r.known[c].clientId) else r.known[c].clientId == ""
  }

  ghost predicate Inv(r: Registry<nat>) {
    EntriesAgree(r) && ClientsMapped(r) && Records(r)
  }

  lemma RegisterKeepsInv(r: Registry<nat>, c: nat, id: string)
    requires Inv(r) && c in r.known && ValidId(id)
    ensures Inv(Register(r, c, id))
  {
  }

  lemma {:induction false} WithoutHolds(clients: seq<nat>, c: nat)
    ensures forall d :: d in Without(clients, c) <==> d in clients && d != c
  {
    if clients != [] {
      WithoutHolds(clients[..|clients| - 1], c);
      assert clients == clients[..|clients| - 1] + [clients[|clients| - 1]];
    }
  }

  lemma RemoveKeepsInv(r: Registry<nat>, c: nat)
    requires Inv(r) && c in r.known
    ensures Inv(Remove(r, c))
    ensures c !in Remove(r, c).clients && forall id :: id in Remove(r, c).ids ==> Remove(r, c).ids[id] != c
  {
    WithoutHolds(r.clients, c);
  }

  lemma {:induction false} ReachableInv(steps: seq<Step>)
    ensures Inv(Execute(steps))
  {
    if steps != [] {
      var init, s := steps[..|steps| - 1], steps[|steps| - 1];
      var r := Execute(init);
      ReachableInv(init);
      match s
      case Arrive(c) =>
      case Command(c, cmd) =>
        if c in r.known && "REGISTER " <= cmd && ValidId(cmd[9..]) {
          RegisterKeepsInv(r, c, cmd[9..]);
        }
      case Leave(c) =>
        if c in r.known {
          RemoveKeepsInv(r, c);
        }
    }
  }

  /** At every moment: a table entry points to a connection registered under that very id; a registered connection
    * that was not removed is in the table under its own id and under no other. */
  lemma TableAgreesWithRecords(steps: seq<Step>, id: string, c: nat)
    ensures var r := Execute(steps);
      && (id in r.ids ==> r.ids[id] in r.known && r.known[r.ids[id]] == Client(id, true))
      && (c in r.clients ==>
            c in r.known && (r.known[c].isRegistered ==> (Mapped(r.ids, id, c) <==> id == r.known[c].clientId)))
  {
    ReachableInv(steps);
  }

  // ---------------------------------------------------------------- who is found, by history

  /** The step registers `c`: a REGISTER of its own with a valid id that nobody else holds. */
  predicate Registers(r: Registry<nat>, s: Step, c: nat) {
    && s.Command? && s.client == c && c in r.known && "REGISTER " <= s.cmd
    && ValidId(s.cmd[9..]) && !Taken(r, c, s.cmd[9..])
  }

  /** The step ends what `c` was registered as before. */
  predicate Ends(r: Registry<nat>, s: Step, c: nat) {
    s == Leave(c) || Registers(r, s, c)
  }

  /** Step `k` registered `c` under `id`, and no later step removed `c` or registered it anew. */
  ghost predicate RegisteredAt(steps: seq<Step>, k: nat, c: nat, id: string) {
    && k < |steps| && Registers(Execute(steps[..k]), steps[k], c) && steps[k].cmd[9..] == id
    && forall j :: k < j < |steps| ==> !Ends(Execute(steps[..j]), steps[j], c)
  }

  lemma StepMaps(r: Registry<nat>, s: Step, c: nat, id: string)
    requires Inv(r)
    ensures Mapped(Do(r, s).ids, id, c) <==>
      if Registers(r, s, c) then s.cmd[9..] == id else s != Leave(c) && Mapped(r.ids, id, c)
  {
    match s
    case Arrive(d) =>
    case Leave(d) =>
      if d in r.known {
        RemoveKeepsInv(r, d);
      }
    case Command(d, cmd) =>
  }

  lemma RegisteredEarlier(steps: seq<Step>, k: nat, c: nat, id: string)
    requires steps != [] && k < |steps| - 1
    ensures var init := steps[..|steps| - 1];
      RegisteredAt(steps, k, c, id) <==>
        RegisteredAt(init, k, c, id) && !Ends(Execute(init), steps[|steps| - 1], c)
  {
    hide Execute, Registers, Ends;
    var init := steps[..|steps| - 1];
    assert forall j :: 0 <= j <= |init| ==> init[..j] == steps[..j];
  }

  /** In every run an id leads to a connection exactly when a REGISTER of that connection for that id was accepted and
    * the connection has neither been removed nor registered anew since. */
  lemma {:induction false} MappedIff(steps: seq<Step>, id: string, c: nat)
    ensures Mapped(Execute(steps).ids, id, c) <==> exists k :: RegisteredAt(steps, k, c, id)
  {
    hide RegisteredAt, Do;
    if steps == [] {
      NobodyRegistered(c, id);
    } else {
      var init, last := steps[..|steps| - 1], steps[|steps| - 1];
      MappedIff(init, id, c);
      ReachableInv(init);
      StepMaps(Execute(init), last, c, id);
      LastStepRegisters(steps, c, id);
      forall k: nat | k < |init|
        ensures RegisteredAt(steps, k, c, id) <==> RegisteredAt(init, k, c, id) && !Ends(Execute(init), last, c)
      {
        RegisteredEarlier(steps, k, c, id);
      }
      forall k: nat | RegisteredAt(steps, k, c, id) || RegisteredAt(init, k, c, id) ensures k < |steps| {
        RegisteredInside(steps, init, k, c, id);
      }
      if k: nat :| RegisteredAt(init, k, c, id) {
        RegisteredInside(init, init, k, c, id);
      }
    }
  }

  lemma NobodyRegistered(c: nat, id: string)
    ensures !Mapped(Execute([]).ids, id, c) && forall k :: !RegisteredAt([], k, c, id)
  {
  }

  lemma RegisteredInside(steps: seq<Step>, init: seq<Step>, k: nat, c: nat, id: string)
    ensures (RegisteredAt(steps, k, c, id) ==> k < |steps|) && (RegisteredAt(init, k, c, id) ==> k < |init|)
  {
  }

  lemma LastStepRegisters(steps: seq<Step>, c: nat, id: string)
    requires steps != []
    ensures var init, last := steps[..|steps| - 1], steps[|steps| - 1];
      RegisteredAt(steps, |init|, c, id) <==> Registers(Execute(init), last, c) && last.cmd[9..] == id
  {
  }

  lemma {:induction false} StaysOut(steps: seq<Step>, later: seq<Step>, c: nat)
    requires c in Execute(steps).known && c !in Execute(steps).clients
    ensures c in Execute(steps + later).known && c !in Execute(steps + later).clients
  {
    if later == [] {
      assert steps + later == steps;
    } else {
      var init, last := later[..|later| - 1], later[|later| - 1];
      StaysOut(steps, init, c);
      assert (steps + later)[..|steps + later| - 1] == steps + init;
      if last.Leave? {
        WithoutHolds(Execute(steps + init).clients, last.client);
      }
    }
  }

  lemma GoneAtOnce(steps: seq<Step>, c: nat)
    requires c in Execute(steps).known
    ensures var r := Execute(steps + [Leave(c)]); c in r.known && c !in r.clients
  {
    assert (steps + [Leave(c)])[..|steps|] == steps;
    WithoutHolds(Execute(steps).clients, c);
  }

  lemma RegisteredAfter(steps: seq<Step>, later: seq<Step>, k: nat, c: nat, id: string)
    requires RegisteredAt(steps + [Leave(c)] + later, k, c, id)
    ensures |steps| < k
  {
    assert (steps + [Leave(c)] + later)[|steps|] == Leave(c);
  }

  /** A removed connection never comes back into the list, and an id leads to it again exactly when it registers once
    * more, its buffered commands being handled after the removal, and is not removed again after that. */
  lemma RemovedIsUnreachable(steps: seq<Step>, later: seq<Step>, c: nat, id: string)
    requires c in Execute(steps).known
    ensures var all := steps + [Leave(c)] + later;
      && c !in Execute(all).clients
      && (Mapped(Execute(all).ids, id, c) <==> exists k :: |steps| < k && RegisteredAt(all, k, c, id))
  {
    hide RegisteredAt, Mapped;
    var gone := steps + [Leave(c)];
    GoneAtOnce(steps, c);
    StaysOut(gone, later, c);
    MappedIff(gone + later, id, c);
    forall k: nat | RegisteredAt(gone + later, k, c, id) ensures |steps| < k {
      RegisteredAfter(steps, later, k, c, id);
    }
  }

  /** Such a run: the last command in the buffer is handled after another thread removed the connection. */
  lemma RemovedRegistersAgain()
    ensures var r := Execute([Arrive(0), Leave(0), Command(0, "REGISTER a")]);
      r.clients == [] && r.ids == map["a" := 0]
  {
    var steps := [Arrive(0), Leave(0), Command(0, "REGISTER a")];
    assert steps[..2] == [Arrive(0), Leave(0)] && steps[..2][..1] == [Arrive(0)] && [Arrive(0)][..0] == [];
    var one := Execute([Arrive(0)]);
    assert one == Registry([0], map[], map[0 := Client("", false)]);
    assert one.clients[..0] == [];
    assert Execute(steps[..2]) == Registry([], map[], map[0 := Client("", false)]);
    assert "REGISTER a"[9..] == "a";
  }

  // ---------------------------------------------------------------- one line of a stream

  /** What one end wrote: whole lines, then the line in question, then anything; and how TCP cut all of it. */
  datatype Stream = Stream(before: string, after: string, packets: seq<string>)

  predicate Carries(st: Stream, line: string) {
    Concat(st.packets) == st.before + (line + "\n" + st.after) && Rest(st.before) == ""
  }

  /** The server handles the command, after what came before and before what comes after. */
  predicate ServerSees(st: Stream, cmd: string) {
    ServerFeed(st.packets) == (Commands(Lines(st.before)) + ([cmd] + Commands(Lines(st.after))), Rest(st.after))
  }

  predicate ClientSees(st: Stream, line: string) {
    ClientFeed(st.packets) == (Lines(st.before) + ([line] + Lines(st.after)), Rest(st.after))
  }

  lemma LineInStream(before: string, line: string, after: string)
    requires Rest(before) == "" && '\n' !in line
    ensures Lines(before + (line + "\n" + after)) == Lines(before) + ([line] + Lines(after))
    ensures Rest(before + (line + "\n" + after)) == Rest(after)
  {
    var tail := line + "\n" + after;
    LinesOfConcat(before, tail);
    assert Rest(before) + tail == tail;
    FirstLine(line, after);
  }

  /** One command written by a client is one command for the server, wherever it stands in the stream and however TCP
    * cuts it. */
  lemma CommandArrives(st: Stream, cmd: string)
    requires Carries(st, cmd) && '\n' !in cmd && cmd != "" && cmd[|cmd| - 1] != '\r'
    ensures ServerSees(st, cmd)
  {
    hide Lines, Rest;
    ServerIgnoresFragmentation(st.packets);
    LineInStream(st.before, cmd, st.after);
    CommandsOfConcat(Lines(st.before), [cmd] + Lines(st.after));
    CommandsOfConcat([cmd], Lines(st.after));
    assert [cmd] == [] + [cmd];
    CommandsOneMore([], cmd);
  }

  lemma LineArrives(st: Stream, line: string)
    requires Carries(st, line) && '\n' !in line && NUL !in Concat(st.packets)
    ensures ClientSees(st, line)
  {
    hide Lines, Rest;
    ClientReadsWhole(st.packets);
    LineInStream(st.before, line, st.after);
  }

  /** The client asks for an id exactly when the server could take it; wherever the request stands in the stream, the
    * connection is then found under that id and no other, unless someone else holds it: then nothing changes. */
  lemma RegistrationTravels(r: Registry<nat>, c: nat, id: string, cmd: string, up: Stream)
    requires Inv(r) && c in r.known && '\n' !in id && (id != "" ==> id[|id| - 1] != '\r')
    requires cmd == "REGISTER " + id
    ensures C.RegisterCommand(id) == if ValidId(id) then Some(cmd + "\n") else None
    ensures ValidId(id) && Carries(up, cmd) ==> ServerSees(up, cmd)
    ensures ValidId(id) && Taken(r, c, id) ==> ProcessCommand(r, c, cmd) == (r, [Line(c, "ERROR ID taken\n")])
    ensures ValidId(id) && !Taken(r, c, id) ==>
      var (q, out) := ProcessCommand(r, c, cmd);
      out == [Line(c, "REGISTERED\n")] && Inv(q) && forall other :: Mapped(q.ids, other, c) <==> other == id
  {
    hide ServerSees, Carries;
    assert cmd[..9] == "REGISTER " && cmd[9..] == id;
    if ValidId(id) {
      assert '\n' !in cmd && cmd[|cmd| - 1] == id[|id| - 1];
      if Carries(up, cmd) {
        CommandArrives(up, cmd);
      }
      RegisterKeepsInv(r, c, id);
      assert ProcessCommand(r, c, cmd) == ProcessRegister(r, c, id);
    }
  }

  // ---------------------------------------------------------------- relayed with a payload

  lemma SplitAtSpace(head: string, tail: string)
    requires ' ' !in head
    ensures FirstOf(head + " " + tail, ' ') == |head|
    ensures (head + " " + tail)[..|head|] == head && (head + " " + tail)[|head| + 1..] == tail
  {
    FirstOfIs(head + " " + tail, ' ', |head|);
  }

  /** The connection `c` is registered as `me`, the connection `d` as `target`. */
  ghost predicate Registered(r: Registry<nat>, c: nat, me: string, d: nat, target: string) {
    && c in r.known && r.known[c] == Client(me, true) && ValidId(me)
    && Mapped(r.ids, target, d) && ValidId(target)
  }

  lemma CandidateForwarded(r: Registry<nat>, c: nat, me: string, d: nat, target: string, payload: string, cmd: string)
    requires Registered(r, c, me, d, target)
    requires cmd == "CANDIDATE " + target + " " + payload
    ensures ProcessCommand(r, c, cmd) == (r, [Line(d, "CANDIDATE " + me + " " + payload + "\n")])
  {
    assert cmd[0] == 'C' && cmd[..10] == "CANDIDATE ";
    assert cmd[10..] == target + " " + payload;
    SplitAtSpace(target, payload);
  }

  lemma ChatForwarded(r: Registry<nat>, c: nat, me: string, d: nat, target: string, payload: string, cmd: string)
    requires Registered(r, c, me, d, target)
    requires cmd == "CHAT " + target + " " + payload
    ensures ProcessCommand(r, c, cmd) == (r, [Line(d, "SERVER_MSG " + me + " " + payload + "\n")])
  {
    assert cmd[0] == 'C' && cmd[1] == 'H' && cmd[..5] == "CHAT ";
    assert cmd[5..] == target + " " + payload;
    SplitAtSpace(target, payload);
  }

  lemma LineParts(verb: string, me: string, payload: string, line: string)
    requires ' ' !in verb && line == verb + " " + me + " " + payload
    ensures FirstOf(line, ' ') == |verb| < |line| && line[..|verb|] == verb
    ensures line[|verb| + 1..] == me + " " + payload
  {
    hide FirstOf;
    assert line == verb + " " + (me + " " + payload);
    SplitAtSpace(verb, me + " " + payload);
  }

  lemma PartsOfArgs(me: string, payload: string, kind: string)
    requires ValidId(me)
    ensures C.SenderAndData(me + " " + payload, kind) == Some(C.Notice(me, kind, payload))
  {
    hide FirstOf;
    SplitAtSpace(me, payload);
  }

  lemma CandidateUnderstood(me: string, payload: string, line: string)
    requires ValidId(me) && line == "CANDIDATE" + " " + me + " " + payload
    ensures C.ProcessLine(line) == Some(C.Notice(me, "candidate", payload))
  {
    hide FirstOf, C.SenderAndData;
    LineParts("CANDIDATE", me, payload, line);
    PartsOfArgs(me, payload, "candidate");
  }

  lemma ChatUnderstood(me: string, payload: string, line: string)
    requires ValidId(me) && line == "SERVER_MSG" + " " + me + " " + payload
    ensures C.ProcessLine(line) == Some(C.Notice(me, "server_chat", payload))
  {
    hide FirstOf, C.SenderAndData;
    LineParts("SERVER_MSG", me, payload, line);
    PartsOfArgs(me, payload, "server_chat");
  }

  predicate Sendable(s: string) {
    '\n' !in s && NUL !in s
  }

  lemma WordsAreSendable(verb: string, id: string, text: string, line: string)
    requires line == verb + " " + id + " " + text && Sendable(verb) && Sendable(id) && Sendable(text)
    ensures Sendable(line)
  {
  }

  /** A relayed chat line, anywhere in the sender's stream, goes to the connection registered under the target id and
    * only there, under the sender's own id; anywhere in that connection's stream, the client is told both. */
  lemma ChatTravels(
      r: Registry<nat>, c: nat, me: string, d: nat, target: string, text: string, cmd: string, line: string,
      up: Stream, down: Stream)
    requires Registered(r, c, me, d, target) && Sendable(me) && Sendable(target) && Sendable(text)
    requires text != "" && text[|text| - 1] != '\r'
    requires cmd == "CHAT " + target + " " + text && line == "SERVER_MSG " + me + " " + text
    requires Carries(up, cmd) && Carries(down, line) && NUL !in Concat(down.packets)
    ensures C.RelayCommand(target, text) == cmd + "\n" && ServerSees(up, cmd)
    ensures ProcessCommand(r, c, cmd) == (r, [Line(d, line + "\n")])
    ensures ClientSees(down, line)
    ensures C.ProcessLine(line) == Some(C.Notice(me, "server_chat", text))
  {
    hide Carries, ServerSees, ClientSees, ProcessCommand, C.ProcessLine, Concat;
    assert cmd[|cmd| - 1] == text[|text| - 1];
    WordsAreSendable("CHAT", target, text, cmd);
    CommandArrives(up, cmd);
    ChatForwarded(r, c, me, d, target, text, cmd);
    WordsAreSendable("SERVER_MSG", me, text, line);
    LineArrives(down, line);
    ChatUnderstood(me, text, line);
  }

  // ---------------------------------------------------------------- a candidate, all the way

  ghost predicate LineSafe(c: T.Info) {
    '\n' !in c.ip && (c.ServerReflexive? ==> '\n' !in c.relatedIp)
  }

  lemma EndpointSafe(ip: string, port: nat)
    requires T.Readable(ip) && '\n' !in ip
    ensures Sendable(T.Endpoint(ip, port)) && T.Endpoint(ip, port) != ""
    ensures var e := T.Endpoint(ip, port); Decimal.IsDigit(e[|e| - 1])
  {
    Decimal.TextIsDigits(port);
    T.EndpointNulFree(ip, port);
    var digits, e := Decimal.ToText(port), T.Endpoint(ip, port);
    forall i | 0 <= i < |e| ensures e[i] != '\n' {
      if i > |ip| {
        assert e[i] == digits[i - |ip| - 1];
      }
    }
    assert e[|e| - 1] == digits[|digits| - 1];
  }

  lemma TextSafe(c: T.Info)
    requires T.AllReadable(c) && LineSafe(c)
    ensures Sendable(T.Text(c)) && T.Text(c) != ""
    ensures T.Text(c)[|T.Text(c)| - 1] != '\r'
  {
    EndpointSafe(c.ip, c.port);
    assert Sendable("host ") && Sendable("srflx ") && Sendable(" related ");
    if c.ServerReflexive? {
      EndpointSafe(c.relatedIp, c.relatedPort);
      var e := T.Endpoint(c.relatedIp, c.relatedPort);
      assert T.Text(c)[|T.Text(c)| - 1] == e[|e| - 1];
    } else {
      var e := T.Endpoint(c.ip, c.port);
      assert T.Text(c)[|T.Text(c)| - 1] == e[|e| - 1];
    }
  }

  /** A candidate, anywhere in the sender's stream, goes to the connection registered under the target id and only
    * there, under the sender's own id; anywhere in that connection's stream, it is read back with the same type,
    * addresses and ports. */
  lemma CandidateTravels(
      r: Registry<nat>, c: nat, me: string, d: nat, target: string, info: T.Info, cmd: string, line: string,
      up: Stream, down: Stream)
    requires Registered(r, c, me, d, target) && Sendable(me) && Sendable(target)
    requires T.AllReadable(info) && T.PortsFit(info) && LineSafe(info)
    requires cmd == "CANDIDATE " + target + " " + T.Text(info) && line == "CANDIDATE " + me + " " + T.Text(info)
    requires Carries(up, cmd) && Carries(down, line) && NUL !in Concat(down.packets)
    ensures C.CandidateCommand(target, T.Text(info)) == cmd + "\n" && ServerSees(up, cmd)
    ensures ProcessCommand(r, c, cmd) == (r, [Line(d, line + "\n")])
    ensures ClientSees(down, line)
    ensures C.ProcessLine(line) == Some(C.Notice(me, "candidate", T.Text(info)))
    ensures T.TryParseCandidateMessage(T.Text(info)) == Some(info)
  {
    hide Carries, ServerSees, ClientSees, ProcessCommand, C.ProcessLine, T.TryParseCandidateMessage, T.Text, Concat;
    var text := T.Text(info);
    TextSafe(info);
    assert cmd[|cmd| - 1] == text[|text| - 1];
    WordsAreSendable("CANDIDATE", target, text, cmd);
    CommandArrives(up, cmd);
    CandidateForwarded(r, c, me, d, target, text, cmd);
    WordsAreSendable("CANDIDATE", me, text, line);
    LineArrives(down, line);
    CandidateUnderstood(me, text, line);
    T.ReadBackIff(info);
  }

  // ---------------------------------------------------------------- offers, answers and refusals

  datatype Signal = Offer | Answer | Refusal

  function Verb(s: Signal): string {
    match s
    case Offer => "OFFER"
    case Answer => "ANSWER"
    case Refusal => "OFFER_DECLINED"
  }

  function NoticeKind(s: Signal): string {
    match s
    case Offer => "offer"
    case Answer => "answer"
    case Refusal => "offer_declined"
  }

  function SignalCommand(s: Signal, target: string): string {
    match s
    case Offer => C.OfferCommand(target)
    case Answer => C.AnswerCommand(target)
    case Refusal => C.OfferDeclinedCommand(target)
  }

  lemma SignalWritten(s: Signal, target: string)
    ensures SignalCommand(s, target) == Verb(s) + " " + target + "\n"
  {
  }

  lemma SignalForwarded(s: Signal, r: Registry<nat>, c: nat, me: string, d: nat, target: string, cmd: string)
    requires Registered(r, c, me, d, target) && cmd == Verb(s) + " " + target
    ensures ProcessCommand(r, c, cmd) == (r, [Line(d, Verb(s) + " " + me + "\n")])
  {
    match s
    case Offer => assert cmd[..6] == "OFFER " && cmd[0] == 'O' && cmd[6..] == target;
    case Answer => assert cmd[..7] == "ANSWER " && cmd[0] == 'A' && cmd[7..] == target;
    case Refusal => assert cmd[..15] == "OFFER_DECLINED " && cmd[0] == 'O' && cmd[5] == '_' && cmd[15..] == target;
  }

  lemma SignalUnderstood(s: Signal, me: string, line: string)
    requires line == Verb(s) + " " + me
    ensures C.ProcessLine(line) == Some(C.Notice(me, NoticeKind(s), ""))
  {
    SplitAtSpace(Verb(s), me);
  }

  /** An offer, answer or refusal, anywhere in the sender's stream, goes to the connection registered under the target
    * id and only there; anywhere in that connection's stream, the client is told the kind and the sender's own id. */
  lemma SignalTravels(
      s: Signal, r: Registry<nat>, c: nat, me: string, d: nat, target: string, cmd: string, line: string,
      up: Stream, down: Stream)
    requires Registered(r, c, me, d, target) && Sendable(me) && Sendable(target) && target[|target| - 1] != '\r'
    requires cmd == Verb(s) + " " + target && line == Verb(s) + " " + me
    requires Carries(up, cmd) && Carries(down, line) && NUL !in Concat(down.packets)
    ensures SignalCommand(s, target) == cmd + "\n" && ServerSees(up, cmd)
    ensures ProcessCommand(r, c, cmd) == (r, [Line(d, line + "\n")])
    ensures ClientSees(down, line)
    ensures C.ProcessLine(line) == Some(C.Notice(me, NoticeKind(s), ""))
  {
    hide Carries, ServerSees, ClientSees, ProcessCommand, C.ProcessLine, Concat, SignalCommand;
    assert cmd[|cmd| - 1] == target[|target| - 1];
    SignalWritten(s, target);
    SignalForwarded(s, r, c, me, d, target, cmd);
    CommandArrives(up, cmd);
    LineArrives(down, line);
    SignalUnderstood(s, me, line);
  }
}
