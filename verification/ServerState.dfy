/** The objects of the server: the list of clients, the database, and the methods that change them. */
module ServerState {
  import opened Bytes
  import opened Options
  import opened Registry
  import opened TableNames
  import opened Text

  class Client {
    const name: Name
    const uuid: Uuid
    var key: seq<Byte>
    var files: seq<Listing>

    constructor (name: Name, uuid: Uuid)
      ensures this.name == name && this.uuid == uuid && key == [] && files == []
    {
      this.name, this.uuid := name, uuid;
      key, files := [], [];
    }

    function AsEntry(): Entry
      reads this
    {
      Entry(name, uuid, key, files)
    }
  }

  function Entries(clients: seq<Client>): (es: seq<Entry>)
    reads clients
    ensures |es| == |clients| && forall i :: 0 <= i < |clients| ==> es[i] == clients[i].AsEntry()
  {
    if |clients| == 0 then []
    else
      var m := |clients| - 1;
      Entries(clients[..m]) + [clients[m].AsEntry()]
  }

  lemma NothingLoaded(rows: map<Uuid, Row>, files: Files)
    ensures LoadedBut([], rows.Keys, rows, files) && Entries([]) == []
  {
  }

  lemma EntriesSnoc(clients: seq<Client>, c: Client)
    ensures Entries(clients + [c]) == Entries(clients) + [c.AsEntry()]
  {
  }

  class Database {
    var clients: map<Uuid, Row>
    var files: Files

    constructor ()
      ensures clients == map[] && files == map[]
    {
      clients, files := map[], map[];
    }
  }

  class Server {
    var listOfClients: seq<Client>
    var reconnect: bool
    const db: Database
    /** The sessions that are between making an entry and having stored it. */
    ghost var open: map<Uuid, Stage>

    constructor ()
      ensures View() == EMPTY && Valid() && fresh(db) && reconnect
    {
      listOfClients, open := [], map[];
      reconnect := true;
      db := new Database();
    }

    ghost function View(): Store
      reads this, db, listOfClients
    {
      Store(Entries(listOfClients), db.clients, db.files, open)
    }

    ghost predicate Valid()
      reads this, db, listOfClients
    {
      && Consistent(View())
      && forall i :: 0 <= i < |listOfClients| ==> |listOfClients[i].uuid| == UUID_SIZE
    }

    /** The loop of a registration over the list. */
    method NameIsFree(name: Name) returns (flag: bool)
      ensures flag <==> !NameTaken(View().list, name)
    {
      flag := true;
      for i := 0 to |listOfClients|
        invariant flag <==> forall j :: 0 <= j < i ==> listOfClients[j].name != name
      {
        if name == listOfClients[i].name { flag := false; }
      }
      if !flag {
        var j :| 0 <= j < |listOfClients| && listOfClients[j].name == name;
        assert View().list[j].name == name;
      } else {
        forall j | 0 <= j < |listOfClients| ensures View().list[j].name != name {}
      }
    }

    /** The loop of a reconnect. The test that the key is not None is always true, since a client
        starts with an empty key; and bytes never equal a UUID, so a known name with another id is
        refused. */
    method FindForReconnect(name: Name, clientId: Uuid) returns (flag: bool, thisClient: Client?)
      requires Valid() && |clientId| == UUID_SIZE
      ensures flag <==> NameTaken(View().list, name)
      ensures thisClient == null <==> forall c :: c in listOfClients && c.name == name ==> c.uuid != clientId
      ensures thisClient != null ==> thisClient in listOfClients && thisClient.name == name && thisClient.uuid == clientId
    {
      flag, thisClient := false, null;
      for i := 0 to |listOfClients|
        invariant !flag && thisClient == null
        invariant forall j :: 0 <= j < i ==> View().list[j].name != name && listOfClients[j].name != name
      {
        var client := listOfClients[i];
        if name == client.name {
          assert View().list[i].name == name;
          HexInjective(clientId, client.uuid);
          flag := true;
          if Hex(clientId) == Hex(client.uuid) { thisClient := client; }
          OneObjectPerName(i);
          break;
        }
      }
    }

    lemma OneObjectPerName(i: nat)
      requires Valid() && i < |listOfClients|
      ensures forall j :: 0 <= j < |listOfClients| && j != i ==> listOfClients[j].name != listOfClients[i].name
    {
      forall j | 0 <= j < |listOfClients| && j != i ensures listOfClients[j].name != listOfClients[i].name {
        assert View().list[j].name != View().list[i].name;
      }
    }

    /** _create_uuid: the random id is an argument. */
    method CreateUuid(name: Name, uuid: Uuid, ghost back: bool) returns (myClient: Client)
      requires Valid() && |uuid| == UUID_SIZE && Fresh(View(), uuid) && !NameTaken(View().list, name)
      modifies this`listOfClients, this`open
      ensures Valid() && View() == Append(old(View()), name, uuid, back)
      ensures fresh(myClient) && IsNew(myClient, name, uuid, back)
    {
      myClient := new Client(name, uuid);
      AppendKeeps(View(), name, uuid, back);
      ghost var before := View();
      listOfClients := listOfClients + [myClient];
      open := open[uuid := NoKey(back)];
      assert View().list == before.list + [Entry(name, uuid, [], [])];
    }

    /** c is the client of a session that waits for its key. */
    ghost predicate IsNew(c: Client, name: Name, uuid: Uuid, back: bool)
      reads this, c
    {
      && c in listOfClients && c.name == name && c.uuid == uuid && c.files == [] && c.key == []
      && uuid in open && open[uuid] == NoKey(back)
    }

    /** A registration up to the key: the client, or null when the name is in use. */
    method RegisterClient(name: Name, uuid: Uuid) returns (myClient: Client?)
      requires Valid() && |uuid| == UUID_SIZE && Fresh(View(), uuid)
      modifies this`listOfClients, this`open
      ensures Valid() && View() == Register(old(View()), name, uuid)
      ensures myClient == null <==> NameTaken(old(View()).list, name)
      ensures myClient != null ==> fresh(myClient) && IsNew(myClient, name, uuid, false)
    {
      var flag := NameIsFree(name);
      if !flag { return null; }
      myClient := CreateUuid(name, uuid, false);
    }

    /** The public key of a registration, or of a reconnect that fell back to one. */
    method KeyArrives(thisClient: Client, key: seq<Byte>, back: bool)
      requires Valid() && thisClient in listOfClients
      requires thisClient.uuid in open && open[thisClient.uuid] == NoKey(back)
      modifies thisClient`key, this`open, this`reconnect
      ensures Valid() && View() == ReceiveKey(old(View()), thisClient.uuid, key)
      ensures reconnect == (old(reconnect) && !back)
    {
      hide Consistent;
      ghost var before := View();
      ReceiveKeyKeeps(before, thisClient.uuid, key);
      OneObjectPerId(thisClient);
      thisClient.key := key;
      if back { reconnect := false; }
      open := if back then open - {thisClient.uuid} else open[thisClient.uuid := HasKey];
      assert View().list == ReceiveKey(before, thisClient.uuid, key).list;
    }

    lemma OneObjectPerId(c: Client)
      requires Valid() && c in listOfClients
      ensures forall i :: 0 <= i < |listOfClients| ==> (listOfClients[i].uuid == c.uuid <==> listOfClients[i] == c)
    {
      var k :| 0 <= k < |listOfClients| && listOfClients[k] == c;
      forall i | 0 <= i < |listOfClients| && listOfClients[i].uuid == c.uuid ensures listOfClients[i] == c {
        assert View().list[i].uuid == View().list[k].uuid;
      }
    }

    /** add_client_to_db: up says whether the database can be written. */
    method AddClientToDb(thisClient: Client, up: bool) returns (result: bool)
      requires Valid() && thisClient in listOfClients
      requires thisClient.uuid in open && open[thisClient.uuid] == HasKey
      modifies this`open, db`clients
      ensures Valid() && View() == InsertRow(old(View()), thisClient.AsEntry(), up)
      ensures result == up
    {
      hide Consistent;
      InsertKeepsOf(thisClient, up);
      result := up && thisClient.uuid !in db.clients;
      if result { db.clients := db.clients[thisClient.uuid := Row(thisClient.name, thisClient.key, None)]; }
      open := open - {thisClient.uuid};
    }

    lemma InsertKeepsOf(c: Client, up: bool)
      requires Valid() && c in listOfClients && c.uuid in open
      ensures Consistent(InsertRow(View(), c.AsEntry(), up)) && c.uuid !in db.clients
    {
      var i :| 0 <= i < |listOfClients| && listOfClients[i] == c;
      InsertKeeps(View(), i, up);
    }

    /** The end of get_answer: a verified path is appended to the client's files, then
        update_clients_and_files updates the row and inserts or replaces the file, or fails. */
    method RecordTransfer(thisClient: Client, path: Name, verified: bool, aes: seq<Byte>, up: bool) returns (result: bool)
      requires Valid() && thisClient in listOfClients
      modifies thisClient`files, db
      ensures Valid() && View() == Record(old(View()), thisClient.uuid, path, verified, aes, up)
      ensures result == up
    {
      hide Consistent, TableName;
      ghost var before := View();
      RecordKeepsOf(thisClient, path, verified, aes, up);
      OneObjectPerId(thisClient);
      if verified { thisClient.files := thisClient.files + [Sent(path)]; }
      result := UpdateClientsAndFiles(thisClient, verified, path, aes, up);
      assert View().list == Record(before, thisClient.uuid, path, verified, aes, up).list;
    }

    lemma RecordKeepsOf(c: Client, path: Name, verified: bool, aes: seq<Byte>, up: bool)
      requires Valid() && c in listOfClients
      ensures Consistent(Record(View(), c.uuid, path, verified, aes, up))
    {
      var i :| 0 <= i < |listOfClients| && listOfClients[i] == c;
      RecordKeeps(View(), i, path, verified, aes, up);
    }

    method UpdateClientsAndFiles(thisClient: Client, flag: bool, path: Name, aes: seq<Byte>, up: bool) returns (result: bool)
      modifies db
      ensures var id, rows := thisClient.uuid, old(db.clients);
              && db.clients == (if up && id in rows then rows[id := rows[id].(aes := Some(aes))] else rows)
              && db.files == (if up then old(db.files)[(id, TableName(path)) := flag] else old(db.files))
      ensures result == up
    {
      if !up { return false; }
      if thisClient.uuid in db.clients {
        db.clients := db.clients[thisClient.uuid := db.clients[thisClient.uuid].(aes := Some(aes))];
      }
      db.files := db.files[(thisClient.uuid, TableName(path)) := flag];
      result := true;
    }

    /** get_data_from_db: a new object for every row. */
    method GetDataFromDb() returns (clients: seq<Client>)
      ensures fresh(set c | c in clients)
      ensures ListOfTables(Entries(clients), db.clients, db.files)
    {
      hide EntryOf, Entries, LoadedBut;
      NothingLoaded(db.clients, db.files);
      clients := [];
      var ids := db.clients.Keys;
      while ids != {}
        invariant ids <= db.clients.Keys && fresh(set c | c in clients)
        invariant LoadedBut(Entries(clients), ids, db.clients, db.files)
        decreases ids
      {
        var id :| id in ids;
        var newClient := LoadClient(id);
        OneMoreLoaded(Entries(clients), ids, db.clients, db.files, newClient.AsEntry());
        EntriesSnoc(clients, newClient);
        ids := ids - {id};
        clients := clients + [newClient];
      }
    }

    /** The start of a server on the database of the one before, whose sessions are gone. */
    method Restart()
      requires Valid()
      modifies this`listOfClients, this`open
      ensures Valid() && Next(old(View()), Restarts, View()) && fresh(set c | c in listOfClients)
    {
      hide EntryOf, Entries, Consistent, ListOfTables, Next;
      ghost var before := View();
      IdSizes();
      var clients := GetDataFromDb();
      listOfClients, open := clients, map[];
      RestartIsNext(before, View());
      assert forall i :: 0 <= i < |clients| ==> View().list[i].uuid in db.clients;
    }

    lemma IdSizes()
      requires Valid()
      ensures forall id :: id in db.clients ==> |id| == UUID_SIZE
    {
      forall id | id in db.clients ensures |id| == UUID_SIZE {
        assert Listed(View().list, id, db.clients[id]);
      }
    }

    method LoadClient(id: Uuid) returns (c: Client)
      requires id in db.clients
      ensures fresh(c) && EntryOf(c.AsEntry(), id, db.clients[id], db.files)
    {
      c := new Client(db.clients[id].name, id);
      c.key := db.clients[id].key;
      LoadFiles(c);
    }

    /** The names of the files of one client, as the table has them and in the order it gives them. */
    method LoadFiles(c: Client)
      requires c.files == []
      modifies c`files
      ensures |c.files| == |FilesOf(db.files, c.uuid)|
      ensures forall f :: f in c.files <==> f.Loaded? && f.text in FilesOf(db.files, c.uuid)
    {
      ghost var all := FilesOf(db.files, c.uuid);
      var names := FilesOf(db.files, c.uuid);
      while names != {}
        invariant names <= all && |c.files| + |names| == |all|
        invariant forall f :: f in c.files <==> f.Loaded? && f.text in all && f.text !in names
        decreases names
      {
        var name :| name in names;
        names := names - {name};
        c.files := c.files + [Loaded(name)];
      }
    }
  }
}
