/** What the server remembers about its clients: the list in memory and the two tables of the
    database, through sessions that may break off anywhere and through restarts. */
module Registry {
  import opened Bytes
  import opened Options
  import opened TableNames

  type Name = seq<Byte>
  type Uuid = seq<Byte>

  /** The table of files: whether a file of a client was verified. */
  type Files = map<(Uuid, string), bool>

  /** A file in a client's list: the path of a transfer, or after a restart the text in the table. */
  datatype Listing = Sent(path: Name) | Loaded(text: string)

  /** A client in the list, and its row in the table of clients. */
  datatype Entry = Entry(name: Name, uuid: Uuid, key: seq<Byte>, files: seq<Listing>)
  datatype Row = Row(name: Name, key: seq<Byte>, aes: Option<seq<Byte>>)

  /** A session that has made an entry: it waits for the public key, after a registration or after a
      reconnect that fell back to one, or it has the key of a registration and will insert the row. */
  datatype Stage = NoKey(back: bool) | HasKey

  datatype Store = Store(list: seq<Entry>, rows: map<Uuid, Row>, files: Files, open: map<Uuid, Stage>)

  // ---------- What the operations do ----------

  predicate NameTaken(list: seq<Entry>, name: Name) {
    exists i :: 0 <= i < |list| && list[i].name == name
  }

  /** Not in use anywhere, as the server takes a new random UUID to be. */
  predicate Fresh(st: Store, uuid: Uuid) {
    && (forall i :: 0 <= i < |st.list| ==> st.list[i].uuid != uuid)
    && uuid !in st.rows && uuid !in st.open
    && forall k :: k in st.files ==> k.0 != uuid
  }

  function Append(st: Store, name: Name, uuid: Uuid, back: bool): Store {
    st.(list := st.list + [Entry(name, uuid, [], [])], open := st.open[uuid := NoKey(back)])
  }

  /** A registration is accepted when the name is new. */
  function Register(st: Store, name: Name, uuid: Uuid): Store {
    if NameTaken(st.list, name) then st else Append(st, name, uuid, false)
  }

  /** A reconnect is granted to the client of that name and id, refused to any other with a known
      name, and turned into a registration for a new name. */
  datatype Outcome = Granted(at: nat) | Refused | Renewed

  ghost predicate ReconnectOutcome(list: seq<Entry>, name: Name, id: Uuid, o: Outcome) {
    match o
    case Granted(i) => i < |list| && list[i].name == name && list[i].uuid == id
    case Refused => NameTaken(list, name) && forall i :: 0 <= i < |list| && list[i].name == name ==> list[i].uuid != id
    case Renewed => !NameTaken(list, name)
  }

  function SetKey(list: seq<Entry>, uuid: Uuid, key: seq<Byte>): (r: seq<Entry>)
    ensures |r| == |list|
    ensures forall i :: 0 <= i < |list| ==> r[i] == if list[i].uuid == uuid then list[i].(key := key) else list[i]
  {
    seq(|list|, i requires 0 <= i < |list| => if list[i].uuid == uuid then list[i].(key := key) else list[i])
  }

  function AddFile(list: seq<Entry>, uuid: Uuid, path: Name): (r: seq<Entry>)
    ensures |r| == |list|
    ensures forall i :: 0 <= i < |list| ==>
              r[i] == if list[i].uuid == uuid then list[i].(files := list[i].files + [Sent(path)]) else list[i]
  {
    seq(|list|, i requires 0 <= i < |list| =>
      if list[i].uuid == uuid then list[i].(files := list[i].files + [Sent(path)]) else list[i])
  }

  /** The public key arrives. */
  function ReceiveKey(st: Store, uuid: Uuid, key: seq<Byte>): Store
    requires uuid in st.open
  {
    st.(list := SetKey(st.list, uuid, key),
        open := if st.open[uuid] == NoKey(true) then st.open - {uuid} else st.open[uuid := HasKey])
  }

  /** The insertion into the table of clients, which may fail. A fallback session never makes one. */
  function InsertRow(st: Store, e: Entry, ok: bool): Store {
    st.(rows := if ok && e.uuid !in st.rows then st.rows[e.uuid := Row(e.name, e.key, None)] else st.rows,
        open := st.open - {e.uuid})
  }

  /** The end of a transfer: a verified name joins the list of the client; the tables change together
      or not at all. The update touches a row if there is one; the insertion replaces an older one. */
  function Record(st: Store, uuid: Uuid, path: Name, verified: bool, aes: seq<Byte>, ok: bool): Store {
    st.(list := if verified then AddFile(st.list, uuid, path) else st.list,
        rows := if ok && uuid in st.rows then st.rows[uuid := st.rows[uuid].(aes := Some(aes))] else st.rows,
        files := if ok then st.files[(uuid, TableName(path)) := verified] else st.files)
  }

  /** What a transfer ends with, and all of them one after the other. */
  datatype Update = Update(path: Name, verified: bool)

  function Recorded(st: Store, uuid: Uuid, us: seq<Update>, aes: seq<Byte>, ok: bool): Store
    decreases |us|
  {
    if |us| == 0 then st else Recorded(Record(st, uuid, us[0].path, us[0].verified, aes, ok), uuid, us[1..], aes, ok)
  }

  lemma RecordedOnce(st: Store, uuid: Uuid, u: Update, aes: seq<Byte>, ok: bool)
    ensures Recorded(st, uuid, [u], aes, ok) == Record(st, uuid, u.path, u.verified, aes, ok)
  {
    var once := Record(st, uuid, u.path, u.verified, aes, ok);
    hide Record;
    assert [u][1..] == [] && Recorded(once, uuid, [], aes, ok) == once;
  }

  function FilesOf(files: Files, uuid: Uuid): set<string> {
    set k | k in files && k.0 == uuid :: k.1
  }

  ghost predicate EntryOf(e: Entry, id: Uuid, row: Row, files: Files) {
    && e.uuid == id && e.name == row.name && e.key == row.key
    && |e.files| == |FilesOf(files, id)|
    && forall f :: f in e.files <==> f.Loaded? && f.text in FilesOf(files, id)
  }

  /** One entry for each row but those with the given ids, in any order. */
  ghost predicate LoadedBut(list: seq<Entry>, ids: set<Uuid>, rows: map<Uuid, Row>, files: Files) {
    && |list| + |ids| == |rows|
    && (forall i :: 0 <= i < |list| ==>
          list[i].uuid in rows && list[i].uuid !in ids && EntryOf(list[i], list[i].uuid, rows[list[i].uuid], files))
    && (forall i, j :: 0 <= i < j < |list| ==> list[i].uuid != list[j].uuid)
    && forall id :: id in rows && id !in ids ==> exists i :: 0 <= i < |list| && list[i].uuid == id
  }

  /** The list after a restart: one entry for each row. */
  ghost predicate ListOfTables(list: seq<Entry>, rows: map<Uuid, Row>, files: Files) {
    LoadedBut(list, {}, rows, files)
  }

  lemma OneMoreLoaded(list: seq<Entry>, ids: set<Uuid>, rows: map<Uuid, Row>, files: Files, e: Entry)
    requires LoadedBut(list, ids, rows, files) && ids <= rows.Keys
    requires e.uuid in ids && EntryOf(e, e.uuid, rows[e.uuid], files)
    ensures LoadedBut(list + [e], ids - {e.uuid}, rows, files)
  {
    hide EntryOf;
    var more := list + [e];
    forall id | id in rows && id !in ids - {e.uuid} ensures exists i :: 0 <= i < |more| && more[i].uuid == id {
      if id == e.uuid {
        assert more[|list|].uuid == id;
      } else {
        var i :| 0 <= i < |list| && list[i].uuid == id;
        assert more[i].uuid == id;
      }
    }
  }

  // ---------- Runs ----------

  datatype Op =
    | Registers(name: Name, uuid: Uuid)
    | Reconnects(name: Name, id: Uuid, uuid: Uuid, outcome: Outcome)
    | SendsKey(uuid: Uuid, key: seq<Byte>)
    | Inserts(at: nat, ok: bool)
    | Records(at: nat, path: Name, verified: bool, aes: seq<Byte>, ok: bool)
    | Restarts

  /** One atomic operation of any of the sessions. A session that breaks off just makes no more. */
  ghost predicate Next(a: Store, op: Op, b: Store) {
    match op
    case Registers(name, uuid) => Fresh(a, uuid) && b == Register(a, name, uuid)
    case Reconnects(name, id, uuid, o) =>
      Fresh(a, uuid) && ReconnectOutcome(a.list, name, id, o) && b == if o == Renewed then Append(a, name, uuid, true) else a
    case SendsKey(uuid, key) => uuid in a.open && a.open[uuid].NoKey? && b == ReceiveKey(a, uuid, key)
    case Inserts(i, ok) =>
      i < |a.list| && a.list[i].uuid in a.open && a.open[a.list[i].uuid] == HasKey && b == InsertRow(a, a.list[i], ok)
    case Records(i, path, verified, aes, ok) =>
      i < |a.list| && b == Record(a, a.list[i].uuid, path, verified, aes, ok)
    case Restarts => b == Store(b.list, a.rows, a.files, map[]) && ListOfTables(b.list, a.rows, a.files)
  }

  const EMPTY: Store := Store([], map[], map[], map[])

  /** Operations one after the other, from any store. */
  ghost predicate IsPath(run: seq<Store>, ops: seq<Op>) {
    |run| == |ops| + 1 && forall i :: 0 <= i < |ops| ==> Next(run[i], ops[i], run[i + 1])
  }

  ghost predicate IsRun(run: seq<Store>, ops: seq<Op>) {
    IsPath(run, ops) && run[0] == EMPTY
  }

  // ---------- The invariant ----------

  ghost predicate Distinct(list: seq<Entry>) {
    forall i, j :: 0 <= i < j < |list| ==> list[i].name != list[j].name && list[i].uuid != list[j].uuid
  }

  ghost predicate Listed(list: seq<Entry>, id: Uuid, row: Row) {
    exists i :: 0 <= i < |list| && list[i].uuid == id && list[i].name == row.name && list[i].key == row.key
  }

  /** Names and ids are pairwise distinct, every row is in the list with the same name and key, and no
      session that is still to store a key has a row already. */
  ghost predicate Consistent(st: Store) {
    && Distinct(st.list)
    && (forall id :: id in st.rows ==> Listed(st.list, id, st.rows[id]))
    && (forall id :: id in st.open ==> id !in st.rows)
  }

  lemma AppendKeeps(a: Store, name: Name, uuid: Uuid, back: bool)
    requires Consistent(a) && Fresh(a, uuid) && !NameTaken(a.list, name)
    ensures Consistent(Append(a, name, uuid, back))
  {
    var b := Append(a, name, uuid, back);
    assert forall i :: 0 <= i < |a.list| ==> b.list[i] == a.list[i] && a.list[i].name != name;
    forall id | id in b.rows ensures Listed(b.list, id, b.rows[id]) {
      var i :| 0 <= i < |a.list| && a.list[i].uuid == id && a.list[i].name == a.rows[id].name && a.list[i].key == a.rows[id].key;
      assert b.list[i] == a.list[i];
    }
  }

  lemma ReceiveKeyKeeps(a: Store, uuid: Uuid, key: seq<Byte>)
    requires Consistent(a) && uuid in a.open
    ensures Consistent(ReceiveKey(a, uuid, key))
  {
    var b := ReceiveKey(a, uuid, key);
    forall id | id in b.rows ensures Listed(b.list, id, b.rows[id]) {
      var i :| 0 <= i < |a.list| && a.list[i].uuid == id && a.list[i].name == a.rows[id].name && a.list[i].key == a.rows[id].key;
      assert b.list[i] == a.list[i];
    }
  }

  lemma InsertKeeps(a: Store, i: nat, ok: bool)
    requires Consistent(a) && i < |a.list| && a.list[i].uuid in a.open
    ensures Consistent(InsertRow(a, a.list[i], ok))
  {
    var b := InsertRow(a, a.list[i], ok);
    forall id | id in b.rows ensures Listed(b.list, id, b.rows[id]) {
      if id in a.rows { assert Listed(a.list, id, a.rows[id]); }
    }
  }

  lemma RecordKeeps(a: Store, i: nat, path: Name, verified: bool, aes: seq<Byte>, ok: bool)
    requires Consistent(a) && i < |a.list|
    ensures Consistent(Record(a, a.list[i].uuid, path, verified, aes, ok))
  {
    var b := Record(a, a.list[i].uuid, path, verified, aes, ok);
    forall id | id in b.rows ensures Listed(b.list, id, b.rows[id]) {
      var j :| 0 <= j < |a.list| && a.list[j].uuid == id && a.list[j].name == a.rows[id].name && a.list[j].key == a.rows[id].key;
      assert b.list[j].uuid == id && b.list[j].name == b.rows[id].name && b.list[j].key == b.rows[id].key;
    }
  }

  lemma RestartKeeps(a: Store, b: Store)
    requires Consistent(a) && b == Store(b.list, a.rows, a.files, map[]) && ListOfTables(b.list, a.rows, a.files)
    ensures Consistent(b)
  {
    forall i, j | 0 <= i < j < |b.list| ensures b.list[i].name != b.list[j].name {
      var p, q := b.list[i].uuid, b.list[j].uuid;
      assert Listed(a.list, p, a.rows[p]) && Listed(a.list, q, a.rows[q]);
    }
    forall id | id in b.rows ensures Listed(b.list, id, b.rows[id]) {
      var i :| 0 <= i < |b.list| && b.list[i].uuid == id;
      assert EntryOf(b.list[i], id, a.rows[id], a.files);
    }
  }

  lemma RestartIsNext(a: Store, b: Store)
    requires Consistent(a) && b == Store(b.list, a.rows, a.files, map[]) && ListOfTables(b.list, a.rows, a.files)
    ensures Consistent(b) && Next(a, Restarts, b) && forall i :: 0 <= i < |b.list| ==> b.list[i].uuid in a.rows
  {
    hide Consistent;
    RestartKeeps(a, b);
  }

  lemma NextKeepsConsistent(a: Store, op: Op, b: Store)
    requires Consistent(a) && Next(a, op, b)
    ensures Consistent(b)
  {
    match op
    case Registers(name, uuid) => if !NameTaken(a.list, name) { AppendKeeps(a, name, uuid, false); }
    case Reconnects(name, id, uuid, o) => if o == Renewed { AppendKeeps(a, name, uuid, true); }
    case SendsKey(uuid, key) => ReceiveKeyKeeps(a, uuid, key);
    case Inserts(i, ok) => InsertKeeps(a, i, ok);
    case Records(i, path, verified, aes, ok) => RecordKeeps(a, i, path, verified, aes, ok);
    case Restarts => RestartKeeps(a, b);
  }

  lemma {:induction false} PathKeepsConsistent(run: seq<Store>, ops: seq<Op>, i: nat)
    requires IsPath(run, ops) && Consistent(run[0]) && i < |run|
    ensures Consistent(run[i])
  {
    hide Next, Consistent;
    if i == 0 {
    } else {
      PathKeepsConsistent(run, ops, i - 1);
      NextKeepsConsistent(run[i - 1], ops[i - 1], run[i]);
    }
  }

  /** In every state of every run of any number of sessions the list and the tables are consistent. */
  lemma AlwaysConsistent(run: seq<Store>, ops: seq<Op>, i: nat)
    requires IsRun(run, ops) && i < |run|
    ensures Consistent(run[i])
  {
    hide Next, Consistent;
    EmptyIsConsistent();
    PathKeepsConsistent(run, ops, i);
  }

  lemma EmptyIsConsistent()
    ensures Consistent(EMPTY)
  {
  }

  /** What is in the table of clients stays there with its name and key, through every operation. */
  lemma {:induction false} RowsArePermanent(run: seq<Store>, ops: seq<Op>, i: nat, j: nat, id: Uuid)
    requires IsPath(run, ops) && i <= j < |run| && id in run[i].rows
    ensures id in run[j].rows && run[j].rows[id].name == run[i].rows[id].name && run[j].rows[id].key == run[i].rows[id].key
    decreases j - i
  {
    if i == j {
    } else {
      assert Next(run[j - 1], ops[j - 1], run[j]);
      RowsArePermanent(run, ops, i, j - 1, id);
    }
  }

  /** Any operations of any sessions, and any restarts, lead from a to b. */
  ghost predicate Later(a: Store, b: Store) {
    exists run, ops :: IsPath(run, ops) && run[0] == a && run[|run| - 1] == b
  }

  lemma LaterKeepsRows(a: Store, b: Store, id: Uuid)
    requires Later(a, b) && Consistent(a) && id in a.rows
    ensures Consistent(b) && id in b.rows && b.rows[id].name == a.rows[id].name && b.rows[id].key == a.rows[id].key
  {
    hide Consistent;
    var run, ops :| IsPath(run, ops) && run[0] == a && run[|run| - 1] == b;
    PathKeepsConsistent(run, ops, |run| - 1);
    RowsArePermanent(run, ops, 0, |run| - 1, id);
  }

  lemma LaterSelf(a: Store)
    ensures Later(a, a)
  {
    assert IsPath([a], []);
  }

  lemma LaterNext(a: Store, b: Store, op: Op, c: Store)
    requires Later(a, b) && Next(b, op, c)
    ensures Later(a, c)
  {
    hide Next;
    var run, ops :| IsPath(run, ops) && run[0] == a && run[|run| - 1] == b;
    var run', ops' := run + [c], ops + [op];
    forall i | 0 <= i < |ops'| ensures Next(run'[i], ops'[i], run'[i + 1]) {
      if i < |ops| { assert run'[i] == run[i] && run'[i + 1] == run[i + 1]; }
    }
    assert IsPath(run', ops');
  }

  // ---------- Where the rows come from ----------

  /** A registration that is not refused. */
  predicate Accepted(a: Store, op: Op, name: Name, id: Uuid) {
    op == Registers(name, id) && !NameTaken(a.list, name)
  }

  /** The insertion of the row of this client, by a session that made it in the database. */
  predicate Inserted(a: Store, op: Op, name: Name, id: Uuid, key: seq<Byte>) {
    op.Inserts? && op.ok && op.at < |a.list| && a.list[op.at].(files := []) == Entry(name, id, key, [])
  }

  ghost predicate WasAccepted(run: seq<Store>, ops: seq<Op>, j: nat, name: Name, id: Uuid)
    requires IsPath(run, ops) && j <= |ops|
  {
    exists i :: 0 <= i < j && Accepted(run[i], ops[i], name, id)
  }

  /** First the registration under this name and id, then the key under this id. */
  ghost predicate SentKey(run: seq<Store>, ops: seq<Op>, j: nat, name: Name, id: Uuid, key: seq<Byte>)
    requires IsPath(run, ops) && j <= |ops|
  {
    exists k :: 0 <= k < j && ops[k] == SendsKey(id, key) && WasAccepted(run, ops, k, name, id)
  }

  /** And then the insertion of the row. */
  ghost predicate GotRow(run: seq<Store>, ops: seq<Op>, j: nat, name: Name, id: Uuid, key: seq<Byte>)
    requires IsPath(run, ops) && j <= |ops|
  {
    exists i :: 0 <= i < j && Inserted(run[i], ops[i], name, id, key) && SentKey(run, ops, i, name, id, key)
  }

  /** A session of a registration that waits for its key or its row goes back to operations before. */
  ghost predicate Explained(run: seq<Store>, ops: seq<Op>, j: nat)
    requires IsPath(run, ops) && j <= |ops|
  {
    forall e :: e in run[j].list && e.uuid in run[j].open ==>
      match run[j].open[e.uuid]
      case NoKey(back) => back || WasAccepted(run, ops, j, e.name, e.uuid)
      case HasKey => SentKey(run, ops, j, e.name, e.uuid, e.key)
  }

  lemma WasAcceptedLater(run: seq<Store>, ops: seq<Op>, j: nat)
    requires IsPath(run, ops) && j < |ops|
    ensures forall name, id :: WasAccepted(run, ops, j, name, id) ==> WasAccepted(run, ops, j + 1, name, id)
    ensures forall name, id, key :: SentKey(run, ops, j, name, id, key) ==> SentKey(run, ops, j + 1, name, id, key)
    ensures forall name, id :: Accepted(run[j], ops[j], name, id) ==> WasAccepted(run, ops, j + 1, name, id)
    ensures forall name, id, key :: ops[j] == SendsKey(id, key) && WasAccepted(run, ops, j, name, id) ==>
              SentKey(run, ops, j + 1, name, id, key)
  {
    hide Next, Accepted;
  }

  lemma NextKeepsExplained(run: seq<Store>, ops: seq<Op>, j: nat)
    requires IsPath(run, ops) && j < |ops| && Explained(run, ops, j)
    ensures Explained(run, ops, j + 1)
  {
    WasAcceptedLater(run, ops, j);
    var a, op, b := run[j], ops[j], run[j + 1];
    forall e | e in b.list && e.uuid in b.open
      ensures match b.open[e.uuid]
              case NoKey(back) => back || WasAccepted(run, ops, j + 1, e.name, e.uuid)
              case HasKey => SentKey(run, ops, j + 1, e.name, e.uuid, e.key)
    {
      assert Next(a, op, b);
      if b.open[e.uuid] != NoKey(true) {
        hide IsPath, WasAccepted, SentKey, NameTaken, Next;
        EntryBefore(a, op, b, e);
      }
    }
  }

  /** Where an entry of a waiting session was before: in the list with that name, or not at all. */
  lemma EntryBefore(a: Store, op: Op, b: Store, e: Entry)
    requires Next(a, op, b) && e in b.list && e.uuid in b.open && b.open[e.uuid] != NoKey(true)
    ensures (Accepted(a, op, e.name, e.uuid) && b.open[e.uuid] == NoKey(false))
            || exists d :: d in a.list && d.name == e.name && d.uuid == e.uuid && d.uuid in a.open
                 && (if op.SendsKey? && op.uuid == e.uuid then a.open[d.uuid] == NoKey(false) && op.key == e.key
                     else d.key == e.key && a.open[d.uuid] == b.open[d.uuid])
  {
  }

  lemma {:induction false} RunIsExplained(run: seq<Store>, ops: seq<Op>, j: nat)
    requires IsRun(run, ops) && j < |run|
    ensures Explained(run, ops, j)
  {
    hide Next, Explained;
    if j == 0 {
      NothingToExplain(run, ops);
    } else {
      RunIsExplained(run, ops, j - 1);
      NextKeepsExplained(run, ops, j - 1);
    }
  }

  lemma NothingToExplain(run: seq<Store>, ops: seq<Op>)
    requires IsRun(run, ops)
    ensures Explained(run, ops, 0)
  {
  }

  predicate HasRow(st: Store, name: Name, id: Uuid, key: seq<Byte>) {
    id in st.rows && st.rows[id].name == name && st.rows[id].key == key
  }

  lemma OneInsertion(a: Store, op: Op, b: Store, name: Name, id: Uuid, key: seq<Byte>)
    requires Consistent(a) && Next(a, op, b)
    ensures HasRow(b, name, id, key) <==> HasRow(a, name, id, key) || Inserted(a, op, name, id, key)
  {
    hide Distinct, ReconnectOutcome, ListOfTables, NameTaken;
  }

  /** A row is in the table just when it has been inserted, whatever has happened since. */
  lemma {:induction false} RowsAreInsertions(run: seq<Store>, ops: seq<Op>, j: nat, name: Name, id: Uuid, key: seq<Byte>)
    requires IsRun(run, ops) && j < |run|
    ensures HasRow(run[j], name, id, key) <==> exists i :: 0 <= i < j && Inserted(run[i], ops[i], name, id, key)
  {
    hide Next, Inserted, Consistent;
    if j == 0 {
    } else {
      RowsAreInsertions(run, ops, j - 1, name, id, key);
      AlwaysConsistent(run, ops, j - 1);
      OneInsertion(run[j - 1], ops[j - 1], run[j], name, id, key);
    }
  }

  /** A row is there just when its client registered, was not refused, sent its key, and the insertion
      then succeeded: a reconnect, granted or fallen back to a registration, never makes a row. */
  lemma OnlyRegistrationsGetRows(run: seq<Store>, ops: seq<Op>, j: nat, name: Name, id: Uuid, key: seq<Byte>)
    requires IsRun(run, ops) && j < |run|
    ensures HasRow(run[j], name, id, key) <==> GotRow(run, ops, j, name, id, key)
  {
    hide Next, SentKey, Inserted;
    RowsAreInsertions(run, ops, j, name, id, key);
    forall i | 0 <= i < j && Inserted(run[i], ops[i], name, id, key) ensures SentKey(run, ops, i, name, id, key) {
      InsertionIsExplained(run, ops, i, name, id, key);
    }
  }

  lemma InsertionIsExplained(run: seq<Store>, ops: seq<Op>, i: nat, name: Name, id: Uuid, key: seq<Byte>)
    requires IsRun(run, ops) && i < |ops| && Inserted(run[i], ops[i], name, id, key)
    ensures SentKey(run, ops, i, name, id, key)
  {
    hide SentKey;
    RunIsExplained(run, ops, i);
    assert Next(run[i], ops[i], run[i + 1]);
    assert run[i].list[ops[i].at] in run[i].list;
  }

  /** An id given out in a fallback, and to no accepted registration, never gets a row. */
  lemma FallbackNeverGetsRow(run: seq<Store>, ops: seq<Op>, j: nat, id: Uuid)
    requires IsRun(run, ops) && j < |run|
    requires forall i, name :: 0 <= i < j ==> !Accepted(run[i], ops[i], name, id)
    ensures id !in run[j].rows
  {
    if id in run[j].rows {
      OnlyRegistrationsGetRows(run, ops, j, run[j].rows[id].name, id, run[j].rows[id].key);
    }
  }

  // ---------- What a transfer leaves behind ----------

  /** The end of a transfer changes the list of this one client, and only if it is verified, whether or
      not the tables can be written; and it changes the tables only if they can be written. */
  lemma RecordChanges(a: Store, i: nat, path: Name, verified: bool, aes: seq<Byte>, ok: bool, b: Store)
    requires Consistent(a) && i < |a.list| && Next(a, Records(i, path, verified, aes, ok), b)
    ensures verified ==> b.list == a.list[i := a.list[i].(files := a.list[i].files + [Sent(path)])]
    ensures !verified ==> b.list == a.list
    ensures var id := a.list[i].uuid;
            if ok then
              && b.files == a.files[(id, TableName(path)) := verified]
              && b.rows == if id in a.rows then a.rows[id := Row(a.rows[id].name, a.rows[id].key, Some(aes))] else a.rows
            else b.files == a.files && b.rows == a.rows
  {
    hide Listed, TableName;
    assert forall j :: 0 <= j < |a.list| && j != i ==> a.list[j].uuid != a.list[i].uuid;
  }

  /** The paths in a list of files that come from transfers since it was loaded or made. */
  function SentPaths(files: seq<Listing>): (paths: seq<Name>)
    ensures paths != [] ==> exists f :: f in files && f.Sent?
  {
    if |files| == 0 then []
    else
      var m := |files| - 1;
      SentPaths(files[..m]) + (if files[m].Sent? then [files[m].path] else [])
  }

  /** A transfer of this client that was verified. */
  predicate Verifies(a: Store, op: Op, id: Uuid) {
    op.Records? && op.verified && op.at < |a.list| && a.list[op.at].uuid == id
  }

  /** The paths of the verified transfers of a client up to j, in order, since the last restart. */
  function VerifiedPaths(run: seq<Store>, ops: seq<Op>, j: nat, id: Uuid): seq<Name>
    requires j <= |ops| <= |run|
  {
    if j == 0 || ops[j - 1] == Restarts then []
    else VerifiedPaths(run, ops, j - 1, id) + (if Verifies(run[j - 1], ops[j - 1], id) then [ops[j - 1].path] else [])
  }

  lemma NothingSent(files: seq<Listing>)
    requires forall f :: f in files ==> f.Loaded?
    ensures SentPaths(files) == []
  {
  }

  /** A client's list, and what an operation makes of it: nothing, one path more, or it is new. */
  lemma FilesAfter(a: Store, op: Op, b: Store, e: Entry)
    requires Consistent(a) && Next(a, op, b) && e in b.list
    ensures if op == Restarts then SentPaths(e.files) == []
            else if exists d :: d in a.list && d.uuid == e.uuid then
              exists d :: d in a.list && d.uuid == e.uuid
                && SentPaths(e.files) == SentPaths(d.files) + (if Verifies(a, op, e.uuid) then [op.path] else [])
            else e.files == [] && !Verifies(a, op, e.uuid)
  {
    hide Consistent, Next, SentPaths;
    var i :| 0 <= i < |b.list| && b.list[i] == e;
    if op.Restarts? {
      LoadedFiles(a, b, e);
      NothingSent(e.files);
    } else if i < |a.list| {
      FilesOfEntry(a, op, b, i);
      assert a.list[i] in a.list;
      SentSnoc(a.list[i].files, op);
    } else {
      FilesOfNew(a, op, b, i);
    }
  }

  lemma LoadedFiles(a: Store, b: Store, e: Entry)
    requires Next(a, Restarts, b) && e in b.list
    ensures forall f :: f in e.files ==> f.Loaded?
  {
    assert EntryOf(e, e.uuid, a.rows[e.uuid], a.files);
  }

  lemma SentSnoc(files: seq<Listing>, op: Op)
    ensures op.Records? ==> SentPaths(files + [Sent(op.path)]) == SentPaths(files) + [op.path]
    ensures SentPaths(files + []) == SentPaths(files) + []
  {
    assert files + [] == files;
    if op.Records? { assert (files + [Sent(op.path)])[..|files|] == files; }
  }

  lemma FilesOfEntry(a: Store, op: Op, b: Store, i: nat)
    requires Consistent(a) && Next(a, op, b) && op != Restarts && i < |a.list|
    ensures i < |b.list| && b.list[i].uuid == a.list[i].uuid
    ensures b.list[i].files == a.list[i].files + (if Verifies(a, op, a.list[i].uuid) then [Sent(op.path)] else [])
  {
    hide Listed, TableName, ReconnectOutcome, NameTaken;
    if op.Records? {
      RecordChanges(a, op.at, op.path, op.verified, op.aes, op.ok, b);
      hide Next;
      assert i != op.at ==> a.list[i].uuid != a.list[op.at].uuid;
    }
  }

  lemma FilesOfNew(a: Store, op: Op, b: Store, i: nat)
    requires Next(a, op, b) && op != Restarts && |a.list| <= i < |b.list|
    ensures b.list[i].files == [] && !Verifies(a, op, b.list[i].uuid) && forall d :: d in a.list ==> d.uuid != b.list[i].uuid
  {
  }

  /** In every run, the files a client's list has from transfers are exactly the verified ones under its
      id since its entry was made or the server restarted, in their order; whether the tables could be
      written does not matter. */
  lemma {:induction false} ListsHoldVerifiedFiles(run: seq<Store>, ops: seq<Op>, j: nat, e: Entry)
    requires IsRun(run, ops) && j < |run| && e in run[j].list
    ensures SentPaths(e.files) == VerifiedPaths(run, ops, j, e.uuid)
  {
    hide Next, Consistent;
    if j == 0 {
    } else {
      AlwaysConsistent(run, ops, j - 1);
      var a, op := run[j - 1], ops[j - 1];
      FilesAfter(a, op, run[j], e);
      if op == Restarts {
      } else if d :| d in a.list && d.uuid == e.uuid && SentPaths(e.files) == SentPaths(d.files) + (if Verifies(a, op, e.uuid) then [op.path] else []) {
        ListsHoldVerifiedFiles(run, ops, j - 1, d);
      } else {
        UnlistedVerifyNothing(run, ops, j - 1, e.uuid);
      }
    }
  }

  lemma StaysListed(a: Store, op: Op, b: Store, id: Uuid)
    requires Next(a, op, b) && op != Restarts && forall e :: e in b.list ==> e.uuid != id
    ensures (forall e :: e in a.list ==> e.uuid != id) && !Verifies(a, op, id)
  {
    forall i | 0 <= i < |a.list| ensures a.list[i].uuid != id {
      assert b.list[i].uuid == a.list[i].uuid && b.list[i] in b.list;
    }
  }

  /** An id that is in no entry has verified nothing since the last restart. */
  lemma {:induction false} UnlistedVerifyNothing(run: seq<Store>, ops: seq<Op>, j: nat, id: Uuid)
    requires IsRun(run, ops) && j < |run| && forall e :: e in run[j].list ==> e.uuid != id
    ensures VerifiedPaths(run, ops, j, id) == []
  {
    if j == 0 || ops[j - 1] == Restarts {
    } else {
      StaysListed(run[j - 1], ops[j - 1], run[j], id);
      hide Next;
      UnlistedVerifyNothing(run, ops, j - 1, id);
    }
  }

  // ---------- The AES keys in the table ----------

  /** An update of the row of this client, which has one. */
  predicate StoresAes(a: Store, op: Op, id: Uuid) {
    op.Records? && op.ok && op.at < |a.list| && a.list[op.at].uuid == id && id in a.rows
  }

  lemma OneAes(a: Store, op: Op, b: Store, id: Uuid)
    requires Consistent(a) && Next(a, op, b) && id in b.rows
    ensures if StoresAes(a, op, id) then b.rows[id].aes == Some(op.aes)
            else if id in a.rows then b.rows[id].aes == a.rows[id].aes
            else b.rows[id].aes == None
  {
    hide Distinct, Listed, TableName, ReconnectOutcome, ListOfTables, NameTaken;
  }

  /** In every run a row holds the AES key of the last transfer it was updated for, verified or not, and
      none before the first. */
  lemma {:induction false} RowsHoldTheLastAes(run: seq<Store>, ops: seq<Op>, j: nat, id: Uuid) returns (i: nat)
    requires IsRun(run, ops) && j < |run| && id in run[j].rows
    ensures match run[j].rows[id].aes
            case Some(aes) =>
              && i < j && StoresAes(run[i], ops[i], id) && aes == ops[i].aes
              && forall k :: i < k < j ==> !StoresAes(run[k], ops[k], id)
            case None => forall k :: 0 <= k < j ==> !StoresAes(run[k], ops[k], id)
  {
    hide Next, Consistent;
    i := 0;
    if j > 0 {
      AlwaysConsistent(run, ops, j - 1);
      OneAes(run[j - 1], ops[j - 1], run[j], id);
      if StoresAes(run[j - 1], ops[j - 1], id) {
        i := j - 1;
      } else if id in run[j - 1].rows {
        i := RowsHoldTheLastAes(run, ops, j - 1, id);
      } else {
        NoRowNoAes(run, ops, j - 1, id);
      }
    }
  }

  lemma NoRowNoAes(run: seq<Store>, ops: seq<Op>, j: nat, id: Uuid)
    requires IsRun(run, ops) && j < |run| && id !in run[j].rows
    ensures forall k :: 0 <= k < j ==> !StoresAes(run[k], ops[k], id)
  {
    hide Next;
    forall k | 0 <= k < j ensures !StoresAes(run[k], ops[k], id) {
      if id in run[k].rows { RowsArePermanent(run, ops, k, j, id); }
    }
  }

  // ---------- Where the files come from ----------

  /** The operation that writes this entry of the table of files. */
  predicate Writes(a: Store, op: Op, id: Uuid, path: Name) {
    op.Records? && op.ok && op.path == path && op.at < |a.list| && a.list[op.at].uuid == id
  }

  /** Nothing between i and j writes the entry again. */
  predicate LastWrite(run: seq<Store>, ops: seq<Op>, i: nat, j: nat, id: Uuid, path: Name)
    requires i < j <= |ops| <= |run|
  {
    Writes(run[i], ops[i], id, path) && forall k :: i < k < j ==> !Writes(run[k], ops[k], id, path)
  }

  /** The table of files says of every file of every client what the last update of that file said,
      whatever other clients, other files, failed updates and restarts came between. */
  lemma {:induction false} FilesAreTheLastRecords(run: seq<Store>, ops: seq<Op>, j: nat, id: Uuid, path: Name)
    requires IsRun(run, ops) && j < |run|
    ensures (id, TableName(path)) in run[j].files <==> exists i :: 0 <= i < j && Writes(run[i], ops[i], id, path)
    ensures forall i :: 0 <= i < j && LastWrite(run, ops, i, j, id, path) ==>
              (id, TableName(path)) in run[j].files && run[j].files[(id, TableName(path))] == ops[i].verified
  {
    hide Next, TableName;
    if j == 0 {
    } else {
      FilesAreTheLastRecords(run, ops, j - 1, id, path);
      OneRecord(run[j - 1], ops[j - 1], run[j], id, path);
      forall i | 0 <= i < j && LastWrite(run, ops, i, j, id, path)
        ensures (id, TableName(path)) in run[j].files && run[j].files[(id, TableName(path))] == ops[i].verified
      {
        if i < j - 1 { assert LastWrite(run, ops, i, j - 1, id, path); }
      }
    }
  }

  lemma OneRecord(a: Store, op: Op, b: Store, id: Uuid, path: Name)
    requires Next(a, op, b)
    ensures var k := (id, TableName(path));
            if Writes(a, op, id, path) then k in b.files && b.files[k] == op.verified
            else if k in a.files then k in b.files && b.files[k] == a.files[k]
            else k !in b.files
  {
    hide TableName, ReconnectOutcome, ListOfTables, NameTaken;
    if op.Records? { TableNameInjective(op.path, path); }
  }

  /** Nothing else is in the table. */
  lemma {:induction false} EveryFileWasRecorded(run: seq<Store>, ops: seq<Op>, j: nat, id: Uuid, text: string)
    requires IsRun(run, ops) && j < |run| && (id, text) in run[j].files
    ensures exists i :: 0 <= i < j && ops[i].Records? && Writes(run[i], ops[i], id, ops[i].path) && TableName(ops[i].path) == text
  {
    hide TableName, ReconnectOutcome, ListOfTables, NameTaken;
    var a, op := run[j - 1], ops[j - 1];
    assert Next(a, op, run[j]);
    if (id, text) in a.files {
      EveryFileWasRecorded(run, ops, j - 1, id, text);
    } else {
      assert Writes(a, op, id, op.path);
    }
  }

  /** After a restart the list of a client holds, as texts of the table, exactly the files with a
      successful update in the past, whether that said verified or not. */
  lemma RestartListsAllFiles(run: seq<Store>, ops: seq<Op>, j: nat, e: Entry, f: Listing)
    requires IsRun(run, ops) && j < |ops| && ops[j] == Restarts && e in run[j + 1].list
    ensures f in e.files <==>
              exists i :: 0 <= i < j && ops[i].Records? && Writes(run[i], ops[i], e.uuid, ops[i].path) && f == Loaded(TableName(ops[i].path))
  {
    hide TableName, Writes;
    var files := run[j].files;
    assert Next(run[j], ops[j], run[j + 1]);
    assert EntryOf(e, e.uuid, run[j].rows[e.uuid], files);
    if f in e.files {
      assert (e.uuid, f.text) in files;
      EveryFileWasRecorded(run, ops, j, e.uuid, f.text);
    }
    forall i | 0 <= i < j && ops[i].Records? && Writes(run[i], ops[i], e.uuid, ops[i].path) && f == Loaded(TableName(ops[i].path))
      ensures f in e.files
    {
      FilesAreTheLastRecords(run, ops, j, e.uuid, ops[i].path);
      assert f.text in FilesOf(files, e.uuid);
    }
  }

  // ---------- Reconnects and restarts ----------

  /** A reconnect has exactly one outcome, and a grant exactly one client. */
  lemma OutcomeIsUnique(st: Store, name: Name, id: Uuid, o: Outcome, p: Outcome)
    requires Consistent(st)
    requires ReconnectOutcome(st.list, name, id, o) && ReconnectOutcome(st.list, name, id, p)
    ensures o == p
  {
  }

  /** A restart keeps exactly the clients that have a row: their names stay taken and they can
      reconnect; every other name is free again. */
  lemma RestartRemembersRows(a: Store, b: Store, name: Name)
    requires Consistent(a) && Next(a, Restarts, b)
    ensures NameTaken(b.list, name) <==> exists id :: id in a.rows && a.rows[id].name == name
    ensures forall id :: id in a.rows && a.rows[id].name == name ==>
              exists i: nat :: ReconnectOutcome(b.list, name, id, Granted(i))
  {
    hide Consistent, FilesOf;
    if NameTaken(b.list, name) {
      var i :| 0 <= i < |b.list| && b.list[i].name == name;
      assert EntryOf(b.list[i], b.list[i].uuid, a.rows[b.list[i].uuid], a.files);
    }
    forall id | id in a.rows && a.rows[id].name == name
      ensures NameTaken(b.list, name) && exists i: nat :: ReconnectOutcome(b.list, name, id, Granted(i))
    {
      var i :| 0 <= i < |b.list| && b.list[i].uuid == id;
      assert EntryOf(b.list[i], id, a.rows[id], a.files);
      assert ReconnectOutcome(b.list, name, id, Granted(i));
    }
  }

  /** So which clients outlive a restart is settled by what they did: their registration was accepted,
      their key arrived, and the insertion of their row succeeded. All others are forgotten. */
  lemma SurvivorsRegistered(run: seq<Store>, ops: seq<Op>, j: nat, name: Name, id: Uuid, key: seq<Byte>)
    requires IsRun(run, ops) && j < |ops| && ops[j] == Restarts
    ensures (exists e :: e in run[j + 1].list && e.name == name && e.uuid == id && e.key == key) <==> GotRow(run, ops, j, name, id, key)
  {
    hide GotRow;
    OnlyRegistrationsGetRows(run, ops, j, name, id, key);
    var a, b := run[j], run[j + 1];
    assert Next(a, ops[j], b);
    if HasRow(a, name, id, key) {
      var i :| 0 <= i < |b.list| && b.list[i].uuid == id;
      assert EntryOf(b.list[i], id, a.rows[id], a.files);
      assert b.list[i] in b.list;
    }
    forall e | e in b.list ensures HasRow(a, e.name, e.uuid, e.key) {
      assert EntryOf(e, e.uuid, a.rows[e.uuid], a.files);
    }
  }

  /** A client that came in through the fallback has no row, so a restart forgets it: another client
      can then register its name. */
  lemma FallbackIsForgotten(name: Name, uuid: Uuid, key: seq<Byte>, other: Uuid) returns (run: seq<Store>, ops: seq<Op>)
    requires uuid != other
    ensures IsRun(run, ops) && |ops| == 4
    ensures ops == [Reconnects(name, other, uuid, Renewed), SendsKey(uuid, key), Restarts, Registers(name, other)]
    ensures run[2].list == [Entry(name, uuid, key, [])] && run[4].list == [Entry(name, other, [], [])]
  {
    var a := Append(EMPTY, name, uuid, true);
    var b := ReceiveKey(a, uuid, key);
    assert b.list == [Entry(name, uuid, key, [])];
    var d := Register(EMPTY, name, other);
    run := [EMPTY, a, b, EMPTY, d];
    ops := [Reconnects(name, other, uuid, Renewed), SendsKey(uuid, key), Restarts, Registers(name, other)];
    assert b.open == map[];
    assert Next(run[0], ops[0], run[1]) && Next(run[1], ops[1], run[2]) && Next(run[2], ops[2], run[3]) && Next(run[3], ops[3], run[4]);
  }
}
