/** How a session starts on the server: registration, reconnect, and reconnect that falls back to a
    registration, from the first header to the AES key. */
module ServerStart {
  import opened Bytes
  import opened Connection
  import opened Names
  import opened Options
  import opened Packets
  import opened Registry
  import opened ServerState
  import opened ServerTransfer
  import opened TableNames
  import opened Wire

  /** The AES key encrypted with a public key, or None where importing the key raises. */
  type Rsa = seq<Byte> -> Option<seq<Byte>>

  datatype Ending = Aborted | Denied | Ready(uuid: Uuid, rest: seq<Byte>)

  /** What the start of a session does: to the store and to self.reconnect, the bytes it sends, and
      how it ends; Ready goes on to the transfer of files with the rest of the stream. */
  datatype Greeting = Greeting(store: Store, reconnect: bool, output: seq<Byte>, ending: Ending)

  ghost function Search(list: seq<Entry>, name: Name, id: Uuid): (o: Registry.Outcome)
    ensures o.Granted? ==> o.at < |list|
  {
    if exists i :: 0 <= i < |list| && list[i].name == name && list[i].uuid == id then
      var i :| 0 <= i < |list| && list[i].name == name && list[i].uuid == id;
      Granted(i)
    else if NameTaken(list, name) then Refused
    else Renewed
  }

  ghost function SendAes(st: Store, reconnect: bool, output: seq<Byte>, code: Uint16, uuid: Uuid, key: seq<Byte>, rsa: Rsa, rest: seq<Byte>): Greeting {
    match rsa(key)
    case None => Greeting(st, reconnect, output, Aborted)
    case Some(aes) =>
      if UUID_SIZE + |aes| >= UINT32_SIZE then Greeting(st, reconnect, output, Aborted)
      else Greeting(st, reconnect, output + ReplyBytes(Reply(3, code, UUID_SIZE + |aes|)) + (uuid + aes), Ready(uuid, rest))
  }

  /** get_key: the payload must be a name field and a key field. */
  function TakeKey(input: seq<Byte>): Option<(seq<Byte>, seq<Byte>)> {
    match TakeMessage(input)
    case None => None
    case Some(m) => if |m.payload| != NAME_FIELD + KEY_FIELD then None else Some((m.payload[NAME_FIELD..], m.rest))
  }

  function StoreKey(st: Store, name: Name, uuid: Uuid, key: seq<Byte>, back: bool, up: bool): Store
    requires uuid in st.open
  {
    var st' := ReceiveKey(st, uuid, key);
    if back then st' else InsertRow(st', Entry(name, uuid, key, []), up)
  }

  /** What the server sends about the insertion of the row: nothing, unless it failed. */
  function DatabaseReport(ok: bool): seq<Byte> {
    if ok then [] else ReplyBytes(Reply(3, GENERIC_ERROR, 0))
  }

  /** The client has been appended: it gets its id, sends its key, and gets the AES key. A database
      error is reported before the AES key is sent all the same. */
  ghost function SignUp(st: Store, reconnect: bool, sent: seq<Byte>, input: seq<Byte>, name: Name, uuid: Uuid, back: bool, rsa: Rsa, up: bool): Greeting
    requires uuid in st.open
  {
    var output := sent + ReplyBytes(Reply(3, if back then FAILED_RECONNECT else SUCCESSFUL_REGISTRATION, 0)) + uuid;
    match TakeKey(input)
    case None => Greeting(st, reconnect, output, Aborted)
    case Some((key, rest)) =>
      SendAes(StoreKey(st, name, uuid, key, back, up), reconnect && !back,
              output + DatabaseReport(back || up), SEND_AES, uuid, key, rsa, rest)
  }

  /** The branch for a reconnect, with the name and id the client gives. */
  ghost function GreetAgain(st: Store, reconnect: bool, sent: seq<Byte>, input: seq<Byte>, name: Name, id: Uuid, uuid: Uuid, rsa: Rsa, up: bool): Greeting {
    match Search(st.list, name, id)
    case Granted(i) =>
      SendAes(st, reconnect, sent, if reconnect then SUCCESSFUL_RECONNECT else SEND_AES, st.list[i].uuid, st.list[i].key, rsa, input)
    case Refused => Greeting(st, reconnect, sent + ReplyBytes(Reply(3, FAILED_REGISTRATION, 0)), Denied)
    case Renewed => SignUp(Append(st, name, uuid, true), reconnect, sent, input, name, uuid, true, rsa, up)
  }

  ghost function GreetNew(st: Store, reconnect: bool, sent: seq<Byte>, input: seq<Byte>, name: Name, uuid: Uuid, rsa: Rsa, up: bool): Greeting {
    if NameTaken(st.list, name) then Greeting(st, reconnect, sent + ReplyBytes(Reply(3, FAILED_REGISTRATION, 0)), Denied)
    else SignUp(Append(st, name, uuid, false), reconnect, sent, input, name, uuid, false, rsa, up)
  }

  /** _start_serving up to get_file, as a function of the bytes that arrive. */
  ghost function Greet(st: Store, reconnect: bool, sent: seq<Byte>, input: seq<Byte>, uuid: Uuid, rsa: Rsa, up: bool): Greeting {
    match TakeMessage(input)
    case None => Greeting(st, reconnect, sent, Aborted)
    case Some(m) =>
      var name := UntilNul(m.payload);
      if m.header.code == RECONNECT_REQUEST then GreetAgain(st, reconnect, sent, m.rest, name, m.header.id, uuid, rsa, up)
      else if m.header.code == REGISTRATION_REQUEST then GreetNew(st, reconnect, sent, m.rest, name, uuid, rsa, up)
      else Greeting(st, reconnect, sent, Aborted)
  }

  lemma SearchIsOutcome(st: Store, name: Name, id: Uuid, o: Registry.Outcome)
    requires Consistent(st) && ReconnectOutcome(st.list, name, id, o)
    ensures Search(st.list, name, id) == o
  {
    OutcomeIsUnique(st, name, id, o, Search(st.list, name, id));
  }

  /** What a session does from the first byte to the last, and what it leaves unread if it finishes. */
  datatype Whole = Whole(store: Store, reconnect: bool, output: seq<Byte>, stored: seq<seq<Byte>>, rest: Option<seq<Byte>>)

  ghost function Session(st: Store, reconnect: bool, sent: seq<Byte>, input: seq<Byte>, uuid: Uuid, rsa: Rsa, up: bool,
                         env: Env, aesKey: seq<Byte>): Whole {
    var g := Greet(st, reconnect, sent, input, uuid, rsa, up);
    match g.ending
    case Ready(id, rest) =>
      var s := Serve(env.(uuid := id), rest, 0);
      Whole(Recorded(g.store, id, s.updates, aesKey, env.database), g.reconnect, g.output + s.output, s.stored,
            if s.ending.Finished? then Some(s.ending.rest) else None)
    case _ => Whole(g.store, g.reconnect, g.output, [], None)
  }

  // ---------- A session is a run of operations ----------

  ghost predicate IsListed(st: Store, uuid: Uuid) {
    exists i :: 0 <= i < |st.list| && st.list[i].uuid == uuid
  }

  lemma SignUpIsLater(st: Store, reconnect: bool, sent: seq<Byte>, input: seq<Byte>, name: Name, uuid: Uuid, back: bool, rsa: Rsa, up: bool)
    requires Fresh(st, uuid)
    ensures var a := Append(st, name, uuid, back);
            var g := SignUp(a, reconnect, sent, input, name, uuid, back, rsa, up);
            Later(a, g.store) && IsListed(g.store, uuid) && (g.ending.Ready? ==> g.ending.uuid == uuid)
  {
    hide TakeKey, ReplyBytes, Later;
    var a := Append(st, name, uuid, back);
    var last := |st.list|;
    LaterSelf(a);
    assert a.list[last].uuid == uuid;
    match TakeKey(input)
    case None =>
    case Some((key, rest)) =>
      var b := ReceiveKey(a, uuid, key);
      assert b.list[last] == Entry(name, uuid, key, []);
      LaterNext(a, a, SendsKey(uuid, key), b);
      if !back {
        var c := InsertRow(b, Entry(name, uuid, key, []), up);
        assert c.list[last].uuid == uuid;
        LaterNext(a, b, Inserts(last, up), c);
      }
  }

  lemma LaterThen(a: Store, op: Op, b: Store, c: Store)
    requires Next(a, op, b) && Later(b, c)
    ensures Later(a, c)
  {
    hide Next;
    var run, ops :| IsPath(run, ops) && run[0] == b && run[|run| - 1] == c;
    assert IsPath([a] + run, [op] + ops);
  }

  lemma GreetIsLater(st: Store, reconnect: bool, sent: seq<Byte>, input: seq<Byte>, uuid: Uuid, rsa: Rsa, up: bool)
    requires Fresh(st, uuid)
    ensures var g := Greet(st, reconnect, sent, input, uuid, rsa, up);
            Later(st, g.store) && (g.ending.Ready? ==> IsListed(g.store, g.ending.uuid))
  {
    hide TakeMessage, UntilNul, SignUp, Later, ReplyBytes, Fresh;
    LaterSelf(st);
    var m := TakeMessage(input);
    if m.Some? {
      var name, id := UntilNul(m.value.payload), m.value.header.id;
      if m.value.header.code == RECONNECT_REQUEST && Search(st.list, name, id) == Renewed {
        SignUpIsLater(st, reconnect, sent, m.value.rest, name, uuid, true, rsa, up);
        var a := Append(st, name, uuid, true);
        LaterThen(st, Reconnects(name, id, uuid, Renewed), a, SignUp(a, reconnect, sent, m.value.rest, name, uuid, true, rsa, up).store);
      } else if m.value.header.code == REGISTRATION_REQUEST && !NameTaken(st.list, name) {
        SignUpIsLater(st, reconnect, sent, m.value.rest, name, uuid, false, rsa, up);
        var a := Append(st, name, uuid, false);
        LaterThen(st, Registers(name, uuid), a, SignUp(a, reconnect, sent, m.value.rest, name, uuid, false, rsa, up).store);
      }
    }
  }

  lemma {:induction false} RecordedIsLater(a: Store, b: Store, uuid: Uuid, us: seq<Update>, aes: seq<Byte>, ok: bool)
    requires Later(a, b) && IsListed(b, uuid)
    ensures Later(a, Recorded(b, uuid, us, aes, ok))
    decreases |us|
  {
    hide Later, TableName;
    if |us| == 0 {
    } else {
      var i :| 0 <= i < |b.list| && b.list[i].uuid == uuid;
      var c := Record(b, uuid, us[0].path, us[0].verified, aes, ok);
      LaterNext(a, b, Records(i, us[0].path, us[0].verified, aes, ok), c);
      assert c.list[i].uuid == uuid;
      RecordedIsLater(a, c, uuid, us[1..], aes, ok);
    }
  }

  /** Whatever bytes arrive, a session does to the list and the tables what some operations of Registry
      do one after the other; so all that is true of its runs is true of any number of sessions. */
  lemma SessionIsLater(st: Store, reconnect: bool, sent: seq<Byte>, input: seq<Byte>, uuid: Uuid, rsa: Rsa, up: bool, env: Env, aesKey: seq<Byte>)
    requires Fresh(st, uuid)
    ensures Later(st, Session(st, reconnect, sent, input, uuid, rsa, up, env, aesKey).store)
  {
    hide Greet, Serve, Later, IsListed, Fresh;
    GreetIsLater(st, reconnect, sent, input, uuid, rsa, up);
    var g := Greet(st, reconnect, sent, input, uuid, rsa, up);
    if g.ending.Ready? {
      RecordedIsLater(st, g.store, g.ending.uuid, Serve(env.(uuid := g.ending.uuid), g.ending.rest, 0).updates, aesKey, env.database);
    }
  }

  class ServerThread {
    const server: Server
    const sock: Socket

    constructor (server: Server, sock: Socket)
      ensures this.server == server && this.sock == sock
    {
      this.server, this.sock := server, sock;
    }

    method SendHeader(code: Uint16, size: Uint32)
      modifies sock`outgoing
      ensures sock.outgoing == old(sock.outgoing) + ReplyBytes(Reply(3, code, size))
    {
      sock.SendAll(ReplyBytes(Reply(3, code, size)));
    }

    method CreateAes(key: seq<Byte>, code: Uint16, uuid: Uuid, rsa: Rsa) returns (ok: bool)
      modifies sock`outgoing
      ensures var g := SendAes(server.View(), server.reconnect, old(sock.outgoing), code, uuid, key, rsa, sock.incoming);
              && sock.outgoing == g.output && g.store == server.View() && g.reconnect == server.reconnect
              && ok == g.ending.Ready? && (ok ==> g.ending == Ready(uuid, sock.incoming))
    {
      var aes := rsa(key);
      if aes.None? || UUID_SIZE + |aes.value| >= UINT32_SIZE { return false; }
      SendHeader(code, UUID_SIZE + |aes.value|);
      sock.SendAll(uuid + aes.value);
      ok := true;
    }

    method GetKey() returns (key: Option<seq<Byte>>)
      modifies sock`incoming
      ensures match TakeKey(old(sock.incoming))
              case None => key == None
              case Some((k, rest)) => key == Some(k) && sock.incoming == rest
    {
      var m := ReceiveMessage(sock);
      if m.None? || |m.value.1| != NAME_FIELD + KEY_FIELD { return None; }
      key := Some(m.value.1[NAME_FIELD..]);
    }

    method StoreClientKey(thisClient: Client, key: seq<Byte>, back: bool, up: bool)
      requires server.Valid() && thisClient in server.listOfClients && thisClient.files == []
      requires thisClient.uuid in server.open && server.open[thisClient.uuid] == NoKey(back)
      modifies sock`outgoing, thisClient`key, server`open, server`reconnect, server.db`clients
      ensures server.Valid() && server.reconnect == (old(server.reconnect) && !back)
      ensures server.View() == StoreKey(old(server.View()), thisClient.name, thisClient.uuid, key, back, up)
      ensures sock.outgoing == old(sock.outgoing) + DatabaseReport(back || up)
    {
      hide Entries, Consistent;
      server.KeyArrives(thisClient, key, back);
      if !back {
        var result := server.AddClientToDb(thisClient, up);
        if !result { SendHeader(GENERIC_ERROR, 0); }
      }
    }

    /** The steps after _create_uuid: the header and the id, the key, and the row of a registration. */
    method SignUpClient(thisClient: Client, back: bool, rsa: Rsa, up: bool) returns (ok: bool)
      requires server.Valid() && thisClient in server.listOfClients && thisClient.files == []
      requires thisClient.uuid in server.open && server.open[thisClient.uuid] == NoKey(back)
      modifies sock, thisClient`key, server`open, server`reconnect, server.db`clients
      ensures server.Valid()
      ensures var g := SignUp(old(server.View()), old(server.reconnect), old(sock.outgoing), old(sock.incoming),
                              thisClient.name, thisClient.uuid, back, rsa, up);
              && server.View() == g.store && server.reconnect == g.reconnect && sock.outgoing == g.output
              && ok == g.ending.Ready? && (ok ==> g.ending == Ready(thisClient.uuid, sock.incoming))
    {
      hide TakeKey, Entries, Consistent, StoreKey, DatabaseReport, ReplyBytes, SendAes;
      SendHeader(if back then FAILED_RECONNECT else SUCCESSFUL_REGISTRATION, 0);
      sock.SendAll(thisClient.uuid);
      var key := GetKey();
      if key.None? { return false; }
      StoreClientKey(thisClient, key.value, back, up);
      ok := CreateAes(key.value, SEND_AES, thisClient.uuid, rsa);
    }

    lemma SearchFinds(flag: bool, c: Client?, name: Name, id: Uuid)
      requires server.Valid()
      requires flag <==> NameTaken(server.View().list, name)
      requires c == null <==> forall d :: d in server.listOfClients && d.name == name ==> d.uuid != id
      requires c != null ==> c in server.listOfClients && c.name == name && c.uuid == id
      ensures var list, o := server.View().list, Search(server.View().list, name, id);
              if c != null then o.Granted? && list[o.at] == c.AsEntry() else o == if flag then Refused else Renewed
    {
      var st := server.View();
      if c != null {
        var i :| 0 <= i < |server.listOfClients| && server.listOfClients[i] == c;
        assert st.list[i] == c.AsEntry();
        SearchIsOutcome(st, name, id, Granted(i));
      } else {
        forall i | 0 <= i < |st.list| && st.list[i].name == name ensures st.list[i].uuid != id {
          assert server.listOfClients[i].name == name;
        }
        SearchIsOutcome(st, name, id, if flag then Refused else Renewed);
      }
    }

    /** The client of a session that goes on to the transfer of a file. */
    twostate predicate Welcomed(new client: Client?, g: Greeting)
      reads this, server, server.db, server.listOfClients, sock
    {
      && server.Valid() && server.View() == g.store && server.reconnect == g.reconnect && sock.outgoing == g.output
      && (client != null <==> g.ending.Ready?)
      && (client != null ==>
            client in server.listOfClients && (client in old(server.listOfClients) || fresh(client))
            && g.ending == Ready(client.uuid, sock.incoming))
    }

    /** The branch for a reconnect. */
    method SignInAgain(name: Name, id: Uuid, uuid: Uuid, rsa: Rsa, up: bool) returns (client: Client?)
      requires server.Valid() && |uuid| == |id| == UUID_SIZE && Fresh(server.View(), uuid)
      modifies sock, server`listOfClients, server`open, server`reconnect, server.db`clients
      ensures Welcomed(client, GreetAgain(old(server.View()), old(server.reconnect), old(sock.outgoing), old(sock.incoming), name, id, uuid, rsa, up))
    {
      hide Entries, Consistent, SignUp, Fresh, ReplyBytes, SendAes, Search, NameTaken;
      var flag, thisClient := server.FindForReconnect(name, id);
      SearchFinds(flag, thisClient, name, id);
      client := null;
      if thisClient != null {
        var ok := CreateAes(thisClient.key, if server.reconnect then SUCCESSFUL_RECONNECT else SEND_AES, thisClient.uuid, rsa);
        if ok { client := thisClient; }
      } else if flag {
        SendHeader(FAILED_REGISTRATION, 0);
      } else {
        var newClient := server.CreateUuid(name, uuid, true);
        var ok := SignUpClient(newClient, true, rsa, up);
        if ok { client := newClient; }
      }
    }

    /** The branch for a registration. */
    method SignInNew(name: Name, uuid: Uuid, rsa: Rsa, up: bool) returns (client: Client?)
      requires server.Valid() && |uuid| == UUID_SIZE && Fresh(server.View(), uuid)
      modifies sock, server`listOfClients, server`open, server`reconnect, server.db`clients
      ensures Welcomed(client, GreetNew(old(server.View()), old(server.reconnect), old(sock.outgoing), old(sock.incoming), name, uuid, rsa, up))
    {
      hide Entries, Consistent, SignUp, Fresh, ReplyBytes, NameTaken;
      client := null;
      var newClient := server.RegisterClient(name, uuid);
      if newClient == null {
        SendHeader(FAILED_REGISTRATION, 0);
      } else {
        var ok := SignUpClient(newClient, false, rsa, up);
        if ok { client := newClient; }
      }
    }

    /** _start_serving up to get_file: the client, or null when the session ends here. uuid is what uuid4
        returns if it is called; up says whether the database can be written. */
    method SignIn(uuid: Uuid, rsa: Rsa, up: bool) returns (client: Client?)
      requires server.Valid() && |uuid| == UUID_SIZE && Fresh(server.View(), uuid)
      modifies sock, server`listOfClients, server`open, server`reconnect, server.db`clients
      ensures Welcomed(client, Greet(old(server.View()), old(server.reconnect), old(sock.outgoing), old(sock.incoming), uuid, rsa, up))
    {
      hide TakeMessage, Entries, Consistent, Fresh, UntilNul, GreetAgain, GreetNew;
      ghost var st := server.View();
      var m := ReceiveMessage(sock);
      assert server.View() == st;
      if m.None? { return null; }
      var (header, nameBytes) := m.value;
      if header.code == RECONNECT_REQUEST {
        client := SignInAgain(UntilNul(nameBytes), header.id, uuid, rsa, up);
      } else if header.code == REGISTRATION_REQUEST {
        client := SignInNew(UntilNul(nameBytes), uuid, rsa, up);
      } else {
        client := null;
      }
    }

    /** The whole of _start_serving. */
    method StartServing(uuid: Uuid, rsa: Rsa, up: bool, env: Env, aesKey: seq<Byte>) returns (stored: seq<seq<Byte>>, finished: bool)
      requires server.Valid() && |uuid| == UUID_SIZE && Fresh(server.View(), uuid)
      modifies sock, server, server.listOfClients, server.db
      ensures server.Valid()
      ensures var t := Session(old(server.View()), old(server.reconnect), old(sock.outgoing), old(sock.incoming), uuid, rsa, up, env, aesKey);
              && server.View() == t.store && server.reconnect == t.reconnect && sock.outgoing == t.output && stored == t.stored
              && finished == t.rest.Some? && (finished ==> sock.incoming == t.rest.value)
    {
      hide Greet, Serve, Recorded, Entries, Consistent, Fresh;
      var client := SignIn(uuid, rsa, up);
      if client == null { return [], false; }
      var session := new FileSession(sock, env.(uuid := client.uuid), server, client, aesKey);
      var ending := session.GetFile();
      stored, finished := session.stored, ending.Finished?;
    }
  }
}
