/** The signalling server: who is registered under which id, and what each command does. */
module SignallingServer {
  import opened Wrappers
  import opened Framing

  datatype Client = Client(clientId: string, isRegistered: bool)

  /** `known` holds the record of every connection ever accepted; `clients` those not removed. */
  datatype Registry<C(==)> = Registry(clients: seq<C>, ids: map<string, C>, known: map<C, Client>)

  /** What is sent where; the user list is kept as the set it lists. */
  datatype Out<C> = Line(dest: C, text: string) | Users(dest: C, ids: set<string>)

  // ---------------------------------------------------------------- the registry

  function Empty<C(==)>(): Registry<C> {
    Registry([], map[], map[])
  }

  function Connect<C(==)>(r: Registry<C>, c: C): Registry<C> {
    if c in r.known then r else Registry(r.clients + [c], r.ids, r.known[c := Client("", false)])
  }

  predicate Mapped<C(==)>(ids: map<string, C>, id: string, c: C) {
    id in ids && ids[id] == c
  }

  function Unmap<C(==)>(ids: map<string, C>, id: string, c: C): map<string, C> {
    if Mapped(ids, id, c) then ids - {id} else ids
  }

  predicate Taken<C(==)>(r: Registry<C>, c: C, id: string) {
    id in r.ids && r.ids[id] != c
  }

  function Register<C(==)>(r: Registry<C>, c: C, id: string): Registry<C>
    requires c in r.known
  {
    if Taken(r, c, id) then r
    else
      var me := r.known[c];
      var ids := if me.isRegistered && me.clientId != id then Unmap(r.ids, me.clientId, c) else r.ids;
      Registry(r.clients, ids[id := c], r.known[c := Client(id, true)])
  }

  function Without<C(==)>(clients: seq<C>, c: C): seq<C> {
    if clients == [] then []
    else Without(clients[..|clients| - 1], c) + if clients[|clients| - 1] == c then [] else [clients[|clients| - 1]]
  }

  function Remove<C(==)>(r: Registry<C>, c: C): Registry<C>
    requires c in r.known
  {
    var id := r.known[c].clientId;
    Registry(Without(r.clients, c), if id != "" then Unmap(r.ids, id, c) else r.ids, r.known)
  }

  // ---------------------------------------------------------------- commands

  function AfterSpace(s: string): Option<(string, string)> {
    var i := FirstOf(s, ' ');
    if i == |s| then None else Some((s[..i], s[i + 1..]))
  }

  function Relay<C(==)>(r: Registry<C>, target: string, text: string): seq<Out<C>> {
    if target in r.ids then [Line(r.ids[target], text)] else []
  }

  function RelayPayload<C(==)>(r: Registry<C>, c: C, args: string, verb: string, complaint: string): seq<Out<C>>
    requires c in r.known
  {
    match AfterSpace(args)
    case None => [Line(c, complaint)]
    case Some((target, payload)) => Relay(r, target, verb + r.known[c].clientId + " " + payload + "\n")
  }

  function OtherIds<C(==)>(r: Registry<C>, c: C): set<string> {
    set id | id in r.ids && r.ids[id] != c
  }

  predicate ValidId(id: string) {
    id != "" && ' ' !in id
  }

  function ProcessRegister<C(==)>(r: Registry<C>, c: C, id: string): (Registry<C>, seq<Out<C>>)
    requires c in r.known
  {
    if !ValidId(id) then (r, [Line(c, "ERROR Invalid ID\n")])
    else (Register(r, c, id), [Line(c, if Taken(r, c, id) then "ERROR ID taken\n" else "REGISTERED\n")])
  }

  function Answer<C(==)>(r: Registry<C>, c: C, cmd: string): seq<Out<C>>
    requires c in r.known
  {
    var me := r.known[c].clientId;
    if !r.known[c].isRegistered then [Line(c, "ERROR Register first\n")]
    else if "CANDIDATE " <= cmd then RelayPayload(r, c, cmd[10..], "CANDIDATE ", "ERROR Malformed CANDIDATE\n")
    else if "OFFER " <= cmd then Relay(r, cmd[6..], "OFFER " + me + "\n")
    else if "ANSWER " <= cmd then Relay(r, cmd[7..], "ANSWER " + me + "\n")
    else if "OFFER_DECLINED " <= cmd then Relay(r, cmd[15..], "OFFER_DECLINED " + me + "\n")
    else if cmd == "LIST" then [Users(c, OtherIds(r, c))]
    else if "CHAT " <= cmd then RelayPayload(r, c, cmd[5..], "SERVER_MSG ", "ERROR Malformed CHAT\n")
    else [Line(c, "ERROR Unknown command\n")]
  }

  function ProcessCommand<C(==)>(r: Registry<C>, c: C, cmd: string): (Registry<C>, seq<Out<C>>)
    requires c in r.known
  {
    if "REGISTER " <= cmd then ProcessRegister(r, c, cmd[9..]) else (r, Answer(r, c, cmd))
  }

  // ---------------------------------------------------------------- the server as the program keeps it

  class ClientContext {
    var clientId: string
    var isRegistered: bool

    constructor ()
      ensures clientId == "" && !isRegistered
    {
      clientId, isRegistered := "", false;
    }
  }

  class Server {
    var clients: seq<ClientContext>
    var idToClient: map<string, ClientContext>
    ghost var accepted: set<ClientContext>

    ghost function View(): Registry<ClientContext>
      reads this, accepted
    {
      Registry(clients, idToClient, map c: ClientContext | c in accepted :: Client(c.clientId, c.isRegistered))
    }

    constructor ()
      ensures View() == Empty()
    {
      clients, idToClient, accepted := [], map[], {};
    }

    method Accept() returns (c: ClientContext)
      modifies this
      ensures fresh(c) && accepted == old(accepted) + {c}
      ensures View() == Connect(old(View()), c)
    {
      c := new ClientContext();
      clients := clients + [c];
      accepted := accepted + {c};
    }

    method FindClientById(id: string) returns (found: bool, c: ClientContext?)
      ensures found <==> id in idToClient
      ensures found ==> c == idToClient[id]
    {
      if id in idToClient {
        return true, idToClient[id];
      }
      return false, null;
    }

    method RegisterAs(c: ClientContext, id: string) returns (taken: bool)
      requires c in accepted
      modifies this, c
      ensures accepted == old(accepted)
      ensures View() == Register(old(View()), c, id) && taken == Taken(old(View()), c, id)
    {
      if id in idToClient && idToClient[id] != c {
        return true;
      }
      if c.isRegistered && c.clientId != id {
        if c.clientId in idToClient && idToClient[c.clientId] == c {
          idToClient := idToClient - {c.clientId};
        }
      }
      c.clientId := id;
      c.isRegistered := true;
      idToClient := idToClient[id := c];
      return false;
    }

    method RemoveClient(c: ClientContext)
      requires c in accepted
      modifies this
      ensures accepted == old(accepted)
      ensures View() == Remove(old(View()), c)
    {
      if c.clientId != "" {
        if c.clientId in idToClient && idToClient[c.clientId] == c {
          idToClient := idToClient - {c.clientId};
        }
      }
      var kept: seq<ClientContext> := [];
      for i := 0 to |clients|
        invariant kept == Without(clients[..i], c)
      {
        assert clients[..i + 1][..i] == clients[..i];
        if clients[i] != c {
          kept := kept + [clients[i]];
        }
      }
      assert clients[..|clients|] == clients;
      clients := kept;
    }

    method SendTo(target: string, text: string) returns (out: seq<Out<ClientContext>>)
      ensures out == Relay(View(), target, text)
    {
      var found, c := FindClientById(target);
      if found {
        return [Line(c, text)];
      }
      return [];
    }

    method ListUsers(c: ClientContext) returns (ids: set<string>)
      ensures ids == OtherIds(View(), c)
    {
      ids := {};
      var todo := idToClient.Keys;
      while todo != {}
        invariant todo <= idToClient.Keys
        invariant ids == set id | id in idToClient && id !in todo && idToClient[id] != c
        decreases |todo|
      {
        var id :| id in todo;
        todo := todo - {id};
        if idToClient[id] != c {
          ids := ids + {id};
        }
      }
    }

    method Reply(c: ClientContext, cmd: string) returns (out: seq<Out<ClientContext>>)
      requires c in accepted
      ensures out == Answer(View(), c, cmd)
    {
      if !c.isRegistered {
        return [Line(c, "ERROR Register first\n")];
      }
      if "CANDIDATE " <= cmd {
        var space := FirstOf(cmd[10..], ' ');
        if space == |cmd[10..]| {
          return [Line(c, "ERROR Malformed CANDIDATE\n")];
        }
        out := SendTo(cmd[10..][..space], "CANDIDATE " + c.clientId + " " + cmd[10..][space + 1..] + "\n");
      } else if "OFFER " <= cmd {
        out := SendTo(cmd[6..], "OFFER " + c.clientId + "\n");
      } else if "ANSWER " <= cmd {
        out := SendTo(cmd[7..], "ANSWER " + c.clientId + "\n");
      } else if "OFFER_DECLINED " <= cmd {
        out := SendTo(cmd[15..], "OFFER_DECLINED " + c.clientId + "\n");
      } else if cmd == "LIST" {
        var ids := ListUsers(c);
        out := [Users(c, ids)];
      } else if "CHAT " <= cmd {
        var space := FirstOf(cmd[5..], ' ');
        if space == |cmd[5..]| {
          return [Line(c, "ERROR Malformed CHAT\n")];
        }
        out := SendTo(cmd[5..][..space], "SERVER_MSG " + c.clientId + " " + cmd[5..][space + 1..] + "\n");
      } else {
        out := [Line(c, "ERROR Unknown command\n")];
      }
    }

    method ProcessLine(c: ClientContext, cmd: string) returns (out: seq<Out<ClientContext>>)
      requires c in accepted
      modifies this, c
      ensures accepted == old(accepted)
      ensures (View(), out) == ProcessCommand(old(View()), c, cmd)
    {
      if "REGISTER " <= cmd {
        var id := cmd[9..];
        if id == "" || ' ' in id {
          return [Line(c, "ERROR Invalid ID\n")];
        }
        var taken := RegisterAs(c, id);
        return [Line(c, if taken then "ERROR ID taken\n" else "REGISTERED\n")];
      }
      out := Reply(c, cmd);
    }
  }
}
