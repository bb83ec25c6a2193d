/** The starts of the two programs put together, on the bytes that travel between them, and a whole
    session from the first header to the acknowledged file. */
module Agreement {
  import opened Bytes
  import opened Cipher
  import opened ClientStart
  import opened ClientTransfer
  import opened EndToEnd
  import opened Names
  import opened Options
  import opened Packets
  import opened Registry
  import opened ServerStart
  import opened TableNames
  import opened ServerTransfer
  import opened Text
  import opened Wire
  import Protocol = Session

  lemma TakeRequest(id: seq<Byte>, code: Uint16, name: seq<Byte>, tail: seq<Byte>)
    requires |id| == UUID_SIZE && |name| < NAME_FIELD && 0 !in name
    ensures var m := TakeMessage(NameRequest(id, code, name) + tail);
            && m == Some(Message(ClientHeader(id, code, NAME_FIELD), Field(name, NAME_FIELD), tail))
            && UntilNul(m.value.payload) == name
  {
    hide HeaderBytes, TakeMessage, UntilNul;
    TakeFramed(ClientHeader(id, code, NAME_FIELD), Field(name, NAME_FIELD), tail);
    FieldRoundTripIff(name, NAME_FIELD);
  }

  /** The message with the key: 1026 under the new id, with the name of the client and its key. */
  lemma TakeKeyMessage(id: seq<Byte>, name: seq<Byte>, key: seq<Byte>, tail: seq<Byte>)
    requires |id| == UUID_SIZE && |name| <= NAME_FIELD && |key| == KEY_FIELD
    ensures var input := KeyMessage(id, name, key) + tail;
            && TakeKey(input) == Some((key, tail))
            && var m := TakeMessage(input);
            && m.Some? && m.value.header == Header(id, 3, 1026, 415) && m.value.rest == tail
            && m.value.payload[255..] == key
            && (|name| < NAME_FIELD && 0 !in name ==> UntilNul(m.value.payload[..255]) == name)
  {
    hide HeaderBytes, TakeMessage, UntilNul;
    var payload := Field(name, NAME_FIELD) + Field(key, KEY_FIELD);
    TakeFramed(ClientHeader(id, SEND_PUB_KEY, NAME_FIELD + KEY_FIELD), payload, tail);
    assert payload[NAME_FIELD..] == key && payload[..NAME_FIELD] == Field(name, NAME_FIELD);
    FieldRoundTripIff(name, NAME_FIELD);
  }

  /** A message of any other size than 415 bytes in place of the key ends the session. */
  lemma KeyOfOtherSize(h: Header, payload: seq<Byte>, tail: seq<Byte>)
    requires |h.id| == UUID_SIZE && |payload| == h.size != 415
    ensures TakeKey(HeaderBytes(h) + payload + tail) == None
  {
    hide HeaderBytes, TakeMessage;
    TakeFramed(h, payload, tail);
  }

  // ---------- What the server says ----------

  /** The last message of a start: the id of the client and the encrypted AES key. */
  predicate AesSays(output: seq<Byte>, code: Uint16, uuid: seq<Byte>, aes: seq<Byte>) {
    && UUID_SIZE + |aes| < UINT32_SIZE && Heads(output, code, UUID_SIZE + |aes|)
    && |output| == 23 + |aes| && output[7..23] == uuid && output[23..] == aes
  }

  /** What a client is told that gets a new id: a code, the id, possibly an error, and the AES key. */
  predicate SignUpSays(output: seq<Byte>, code: Uint16, uuid: seq<Byte>, failed: bool, aes: seq<Byte>) {
    && |output| >= 30 && Heads(output, code, 0) && output[7..23] == uuid
    && if failed then Heads(output[23..], GENERIC_ERROR, 0) && AesSays(output[30..], SEND_AES, uuid, aes)
       else AesSays(output[23..], SEND_AES, uuid, aes)
  }

  lemma AesAnswerSays(code: Uint16, uuid: seq<Byte>, aes: seq<Byte>)
    requires |uuid| == UUID_SIZE && UUID_SIZE + |aes| < UINT32_SIZE
    ensures AesSays(AesAnswer(code, uuid, aes), code, uuid, aes)
  {
    hide ReplyBytes, UnpackReply;
    var a := AesAnswer(code, uuid, aes);
    ReplyHeads(code, UUID_SIZE + |aes|, uuid + aes);
    assert a[7..23] == uuid && a[23..] == aes;
  }

  lemma SignUpAnswerSays(code: Uint16, uuid: seq<Byte>, failed: bool, aes: seq<Byte>)
    requires |uuid| == UUID_SIZE && UUID_SIZE + |aes| < UINT32_SIZE
    ensures SignUpSays(ReplyBytes(Reply(3, code, 0)) + (uuid + (DatabaseReport(!failed) + AesAnswer(SEND_AES, uuid, aes))), code, uuid, failed, aes)
  {
    hide ReplyBytes, UnpackReply, AesAnswer, AesSays;
    var answer := AesAnswer(SEND_AES, uuid, aes);
    var rest := DatabaseReport(!failed) + answer;
    var a := ReplyBytes(Reply(3, code, 0)) + (uuid + rest);
    AesAnswerSays(SEND_AES, uuid, aes);
    ReplyHeads(code, 0, uuid + rest);
    ReplyHeads(GENERIC_ERROR, 0, answer);
    assert a[7..23] == uuid && a[23..] == rest;
    if failed { assert a[30..] == answer; } else { assert rest == answer; }
    AesIsLong(answer, SEND_AES, uuid, aes);
  }

  lemma AesIsLong(output: seq<Byte>, code: Uint16, uuid: seq<Byte>, aes: seq<Byte>)
    requires AesSays(output, code, uuid, aes)
    ensures |output| >= 23
  {
  }

  lemma ReadReply(r: Reply, tail: seq<Byte>)
    ensures var input := ReplyBytes(r) + tail;
            |input| >= REPLY_SIZE && UnpackReply(input[..REPLY_SIZE]) == r && input[REPLY_SIZE..] == tail
  {
    hide ReplyBytes, UnpackReply;
    ReplyRoundTrip(r);
    assert (ReplyBytes(r) + tail)[..REPLY_SIZE] == ReplyBytes(r);
  }

  /** The message with the AES key. */
  function AesAnswer(code: Uint16, uuid: seq<Byte>, aes: seq<Byte>): seq<Byte>
    requires UUID_SIZE + |aes| < UINT32_SIZE
  {
    ReplyBytes(Reply(3, code, UUID_SIZE + |aes|)) + (uuid + aes)
  }

  lemma AwaitAesAnswer(c: Start, sent: seq<Byte>, code: Uint16, id: seq<Byte>, aes: seq<Byte>, uuid: string, back: bool, tail: seq<Byte>)
    requires ValidStart(c) && |id| == UUID_SIZE && UUID_SIZE + |aes| < UINT32_SIZE
    requires code == SEND_AES || code == SUCCESSFUL_RECONNECT
    ensures AwaitAes(c, sent, AesAnswer(code, id, aes) + tail, uuid, back) == Connected(sent, uuid, aes, tail)
  {
    hide ReplyBytes, UnpackReply;
    var size := UUID_SIZE + |aes|;
    var body := id + aes + tail;
    assert AesAnswer(code, id, aes) + tail == ReplyBytes(Reply(3, code, size)) + body;
    ReadReply(Reply(3, code, size), body);
    assert body[UUID_SIZE..size] == aes && body[size..] == tail;
  }

  /** An error in place of the AES key ends the client, before and after a fallback. */
  lemma ErrorEndsStart(c: Start, sent: seq<Byte>, uuid: string, back: bool, size: Uint32, tail: seq<Byte>)
    requires ValidStart(c)
    ensures AwaitAes(c, sent, ReplyBytes(Reply(3, GENERIC_ERROR, size)) + tail, uuid, back) == Ended(sent)
  {
    hide ReplyBytes, UnpackReply;
    ReadReply(Reply(3, GENERIC_ERROR, size), tail);
  }

  lemma CreateKeyAnswered(c: Start, sent: seq<Byte>, id: seq<Byte>, aes: seq<Byte>, back: bool, tail: seq<Byte>)
    requires ValidStart(c) && |id| == UUID_SIZE && UUID_SIZE + |aes| < UINT32_SIZE
    ensures CreateKey(c, sent, id + (AesAnswer(SEND_AES, id, aes) + tail), back) ==
            Connected(sent + KeyMessage(id, c.name, c.publicKey), Hex(id), aes, tail)
  {
    hide AwaitAes, AesAnswer, KeyMessage;
    var input := id + (AesAnswer(SEND_AES, id, aes) + tail);
    assert input[..UUID_SIZE] == id && input[UUID_SIZE..] == AesAnswer(SEND_AES, id, aes) + tail;
    AwaitAesAnswer(c, sent + KeyMessage(id, c.name, c.publicKey), SEND_AES, id, aes, Hex(id), back, tail);
  }

  lemma SignUpAnswers(st: Store, reconnect: bool, name: Name, keyName: seq<Byte>, key: seq<Byte>, uuid: seq<Byte>, back: bool,
                      rsa: Rsa, aes: seq<Byte>, up: bool, tail: seq<Byte>)
    requires uuid in st.open && |uuid| == UUID_SIZE && |keyName| <= NAME_FIELD && |key| == KEY_FIELD
    requires rsa(key) == Some(aes) && UUID_SIZE + |aes| < UINT32_SIZE
    ensures var header := ReplyBytes(Reply(3, if back then FAILED_RECONNECT else SUCCESSFUL_REGISTRATION, 0));
            SignUp(st, reconnect, [], KeyMessage(uuid, keyName, key) + tail, name, uuid, back, rsa, up) ==
            Greeting(StoreKey(st, name, uuid, key, back, up), reconnect && !back,
                     header + (uuid + (DatabaseReport(back || up) + AesAnswer(SEND_AES, uuid, aes))), Ready(uuid, tail))
  {
    hide KeyMessage, TakeKey, ReplyBytes, StoreKey;
    TakeKeyMessage(uuid, keyName, key, tail);
    var header := ReplyBytes(Reply(3, if back then FAILED_RECONNECT else SUCCESSFUL_REGISTRATION, 0));
    var report := DatabaseReport(back || up);
    assert [] + header + uuid + report + ReplyBytes(Reply(3, SEND_AES, UUID_SIZE + |aes|)) + (uuid + aes)
        == header + (uuid + (report + AesAnswer(SEND_AES, uuid, aes)));
  }

  /** A client without me.info, and a server that does not know its name and can use its key. */
  ghost predicate NewClient(st: Store, c: Start, uuid: seq<Byte>, rsa: Rsa, aes: seq<Byte>) {
    && Consistent(st) && Fresh(st, uuid) && |uuid| == UUID_SIZE
    && ValidStart(c) && c.account == None && |c.name| < NAME_FIELD && 0 !in c.name && |c.publicKey| == KEY_FIELD
    && !NameTaken(st.list, c.name) && rsa(c.publicKey) == Some(aes) && UUID_SIZE + |aes| < UINT32_SIZE
  }

  /** A new name registers: the server ends up with the client's name, key and new id in the list and
      in the table, and the client with that id and the AES key; nothing is left over on either side. */
  lemma RegistrationAgrees(st: Store, reconnect: bool, c: Start, uuid: seq<Byte>, rsa: Rsa, aes: seq<Byte>, tail: seq<Byte>, tail': seq<Byte>)
    requires NewClient(st, c, uuid, rsa, aes)
    ensures var hello := NameRequest(Zeros(UUID_SIZE), REGISTRATION_REQUEST, c.name) + KeyMessage(uuid, c.name, c.publicKey);
            var g := Greet(st, reconnect, [], hello + tail, uuid, rsa, true);
            && g.ending == Ready(uuid, tail) && g.reconnect == reconnect
            && g.store.list == st.list + [Entry(c.name, uuid, c.publicKey, [])]
            && g.store.rows == st.rows[uuid := Row(c.name, c.publicKey, None)]
            && g.store.files == st.files && g.store.open == st.open
            && SignUpSays(g.output, SUCCESSFUL_REGISTRATION, uuid, false, aes)
            && Begin(c, g.output + tail') == Connected(hello, Hex(uuid), aes, tail')
  {
    hide KeyMessage, NameRequest, TakeMessage, UntilNul, ReplyBytes, UnpackReply, AesAnswer, SignUp, CreateKey, StoreKey, Consistent, Fresh, NameTaken, SignUpSays;
    SignUpAnswerSays(SUCCESSFUL_REGISTRATION, uuid, false, aes);
    var request, key := NameRequest(Zeros(UUID_SIZE), REGISTRATION_REQUEST, c.name), KeyMessage(uuid, c.name, c.publicKey);
    assert (request + key) + tail == request + (key + tail);
    TakeRequest(Zeros(UUID_SIZE), REGISTRATION_REQUEST, c.name, key + tail);
    SignUpAnswers(Append(st, c.name, uuid, false), reconnect, c.name, c.name, c.publicKey, uuid, false, rsa, aes, true, tail);
    KeyStored(st, c.name, uuid, c.publicKey, false, true);
    var header, answer := ReplyBytes(Reply(3, SUCCESSFUL_REGISTRATION, 0)), AesAnswer(SEND_AES, uuid, aes);
    assert header + (uuid + ([] + answer)) + tail' == header + (uuid + (answer + tail'));
    ReadReply(Reply(3, SUCCESSFUL_REGISTRATION, 0), uuid + (answer + tail'));
    CreateKeyAnswered(c, request, uuid, aes, false, tail');
  }

  /** When the row of a registration cannot be inserted, the server says so and then sends the AES key
      all the same and waits for a file; the client stops at the error. The name is taken from then
      on, by a client without a row. */
  lemma DatabaseErrorDisagrees(st: Store, reconnect: bool, c: Start, uuid: seq<Byte>, rsa: Rsa, aes: seq<Byte>, tail: seq<Byte>, tail': seq<Byte>)
    requires NewClient(st, c, uuid, rsa, aes)
    ensures var hello := NameRequest(Zeros(UUID_SIZE), REGISTRATION_REQUEST, c.name) + KeyMessage(uuid, c.name, c.publicKey);
            var g := Greet(st, reconnect, [], hello + tail, uuid, rsa, false);
            && g.ending == Ready(uuid, tail) && g.store.rows == st.rows && uuid !in g.store.rows
            && g.store.list == st.list + [Entry(c.name, uuid, c.publicKey, [])]
            && SignUpSays(g.output, SUCCESSFUL_REGISTRATION, uuid, true, aes)
            && Begin(c, g.output + tail') == Ended(hello)
  {
    hide KeyMessage, NameRequest, TakeMessage, UntilNul, ReplyBytes, UnpackReply, AesAnswer, SignUp, StoreKey, Consistent, NameTaken, SignUpSays;
    SignUpAnswerSays(SUCCESSFUL_REGISTRATION, uuid, true, aes);
    var request, key := NameRequest(Zeros(UUID_SIZE), REGISTRATION_REQUEST, c.name), KeyMessage(uuid, c.name, c.publicKey);
    assert (request + key) + tail == request + (key + tail);
    TakeRequest(Zeros(UUID_SIZE), REGISTRATION_REQUEST, c.name, key + tail);
    SignUpAnswers(Append(st, c.name, uuid, false), reconnect, c.name, c.name, c.publicKey, uuid, false, rsa, aes, false, tail);
    KeyStored(st, c.name, uuid, c.publicKey, false, false);
    var header, report, answer := ReplyBytes(Reply(3, SUCCESSFUL_REGISTRATION, 0)), DatabaseReport(false), AesAnswer(SEND_AES, uuid, aes);
    assert header + (uuid + (report + answer)) + tail' == header + (uuid + (report + (answer + tail')));
    var input := uuid + (report + (answer + tail'));
    ReadReply(Reply(3, SUCCESSFUL_REGISTRATION, 0), input);
    assert input[..UUID_SIZE] == uuid && input[UUID_SIZE..] == report + (answer + tail');
    ReadReply(Reply(3, GENERIC_ERROR, 0), answer + tail');
  }

  lemma KeyStored(st: Store, name: Name, uuid: seq<Byte>, key: seq<Byte>, back: bool, up: bool)
    requires Consistent(st) && Fresh(st, uuid)
    ensures var st' := StoreKey(Append(st, name, uuid, back), name, uuid, key, back, up);
            && st'.list == st.list + [Entry(name, uuid, key, [])] && st'.open == st.open && st'.files == st.files
            && st'.rows == if back || !up then st.rows else st.rows[uuid := Row(name, key, None)]
  {
    var a := Append(st, name, uuid, back);
    assert SetKey(a.list, uuid, key) == st.list + [Entry(name, uuid, key, [])];
    assert a.open - {uuid} == st.open && a.open[uuid := HasKey] - {uuid} == st.open;
  }

  /** A reconnect with the name and id of a known client is granted, whatever self.reconnect holds;
      the AES key is encrypted with the key of that client, and the store does not change. */
  lemma ReconnectAgrees(st: Store, reconnect: bool, c: Start, i: nat, newUuid: seq<Byte>, rsa: Rsa, aes: seq<Byte>, up: bool, tail: seq<Byte>, tail': seq<Byte>)
    requires Consistent(st) && i < |st.list| && |st.list[i].uuid| == UUID_SIZE
    requires ValidStart(c) && c.account == Some(Account(st.list[i].name, Hex(st.list[i].uuid)))
    requires |st.list[i].name| < NAME_FIELD && 0 !in st.list[i].name
    requires rsa(st.list[i].key) == Some(aes) && UUID_SIZE + |aes| < UINT32_SIZE
    ensures var e := st.list[i];
            var hello := NameRequest(e.uuid, RECONNECT_REQUEST, e.name);
            var g := Greet(st, reconnect, [], hello + tail, newUuid, rsa, up);
            && g.ending == Ready(e.uuid, tail) && g.store == st && g.reconnect == reconnect
            && AesSays(g.output, if reconnect then SUCCESSFUL_RECONNECT else SEND_AES, e.uuid, aes)
            && Begin(c, g.output + tail') == Connected(hello, Hex(e.uuid), aes, tail')
  {
    hide NameRequest, TakeMessage, UntilNul, ReplyBytes, AwaitAes, Consistent, Hex, FromHex, Search;
    var e := st.list[i];
    TakeRequest(e.uuid, RECONNECT_REQUEST, e.name, tail);
    SearchIsOutcome(st, e.name, e.uuid, Granted(i));
    HexRoundTrip(e.uuid, Hex(e.uuid));
    var code := if reconnect then SUCCESSFUL_RECONNECT else SEND_AES;
    assert [] + ReplyBytes(Reply(3, code, UUID_SIZE + |aes|)) + (e.uuid + aes) == AesAnswer(code, e.uuid, aes);
    AesAnswerSays(code, e.uuid, aes);
    AwaitAesAnswer(c, NameRequest(e.uuid, RECONNECT_REQUEST, e.name), code, e.uuid, aes, Hex(e.uuid), false, tail');
  }

  /** A reconnect under an unknown name falls back to a registration: both sides take the new id, and
      the client is in the list; but it gets no row in the table. */
  lemma FallbackAgrees(st: Store, reconnect: bool, c: Start, id: seq<Byte>, uuid: seq<Byte>, rsa: Rsa, aes: seq<Byte>, tail: seq<Byte>, tail': seq<Byte>)
    requires Consistent(st) && Fresh(st, uuid) && |uuid| == UUID_SIZE == |id|
    requires ValidStart(c) && c.account.Some? && c.account.value.uuid == Hex(id) && |c.publicKey| == KEY_FIELD
    requires var name := c.account.value.name; |name| < NAME_FIELD && 0 !in name && !NameTaken(st.list, name)
    requires rsa(c.publicKey) == Some(aes) && UUID_SIZE + |aes| < UINT32_SIZE
    ensures var name := c.account.value.name;
            var hello := NameRequest(id, RECONNECT_REQUEST, name) + KeyMessage(uuid, c.name, c.publicKey);
            var g := Greet(st, reconnect, [], hello + tail, uuid, rsa, true);
            && g.ending == Ready(uuid, tail) && !g.reconnect
            && g.store == st.(list := st.list + [Entry(name, uuid, c.publicKey, [])])
            && SignUpSays(g.output, FAILED_RECONNECT, uuid, false, aes)
            && Begin(c, g.output + tail') == Connected(hello, Hex(uuid), aes, tail')
  {
    hide KeyMessage, NameRequest, TakeMessage, UntilNul, ReplyBytes, UnpackReply, AesAnswer, SignUp, CreateKey, StoreKey, Consistent, Fresh, NameTaken, Hex, FromHex, Search, SignUpSays;
    SignUpAnswerSays(FAILED_RECONNECT, uuid, false, aes);
    var name := c.account.value.name;
    var request, key := NameRequest(id, RECONNECT_REQUEST, name), KeyMessage(uuid, c.name, c.publicKey);
    assert (request + key) + tail == request + (key + tail);
    TakeRequest(id, RECONNECT_REQUEST, name, key + tail);
    SearchIsOutcome(st, name, id, Renewed);
    SignUpAnswers(Append(st, name, uuid, true), reconnect, name, c.name, c.publicKey, uuid, true, rsa, aes, true, tail);
    KeyStored(st, name, uuid, c.publicKey, true, true);
    HexRoundTrip(id, Hex(id));
    var header, answer := ReplyBytes(Reply(3, FAILED_RECONNECT, 0)), AesAnswer(SEND_AES, uuid, aes);
    assert header + (uuid + ([] + answer)) + tail' == header + (uuid + (answer + tail'));
    ReadReply(Reply(3, FAILED_RECONNECT, 0), uuid + (answer + tail'));
    CreateKeyAnswered(c, request, uuid, aes, true, tail');
  }

  /** A known name is refused to a registration, and to a reconnect with another id: all the server says
      is 1601, and that stops the client, whatever else it might find in the stream. */
  lemma RefusalAgrees(st: Store, reconnect: bool, c: Start, id: seq<Byte>, uuid: seq<Byte>, rsa: Rsa, up: bool, tail: seq<Byte>, tail': seq<Byte>)
    requires Consistent(st) && ValidStart(c) && |id| == UUID_SIZE
    requires c.account.Some? ==> c.account.value.uuid == Hex(id)
    requires var name := if c.account.Some? then c.account.value.name else c.name;
             |name| < NAME_FIELD && 0 !in name && NameTaken(st.list, name)
             && (c.account.Some? ==> forall i :: 0 <= i < |st.list| && st.list[i].name == name ==> st.list[i].uuid != id)
    ensures var hello := if c.account.Some? then NameRequest(id, RECONNECT_REQUEST, c.account.value.name)
                         else NameRequest(Zeros(UUID_SIZE), REGISTRATION_REQUEST, c.name);
            var g := Greet(st, reconnect, [], hello + tail, uuid, rsa, up);
            && g.ending == Denied && g.store == st && g.reconnect == reconnect
            && |g.output| == REPLY_SIZE && Heads(g.output, FAILED_REGISTRATION, 0)
            && Begin(c, g.output + tail') == Ended(hello)
  {
    hide NameRequest, TakeMessage, UntilNul, ReplyBytes, UnpackReply, Consistent, NameTaken, Hex, FromHex, Search, CreateKey;
    var reply := Reply(3, FAILED_REGISTRATION, 0);
    ReadReply(reply, tail');
    ReplyHeads(FAILED_REGISTRATION, 0, []);
    assert [] + ReplyBytes(reply) == ReplyBytes(reply) == ReplyBytes(reply) + [];
    if c.account.Some? {
      TakeRequest(id, RECONNECT_REQUEST, c.account.value.name, tail);
      SearchIsOutcome(st, c.account.value.name, id, Refused);
      HexRoundTrip(id, Hex(id));
    } else {
      TakeRequest(Zeros(UUID_SIZE), REGISTRATION_REQUEST, c.name, tail);
    }
  }

  // ---------- The messages of the state machines ----------

  /** The state machines of Session give every message the size that it has on the wire. */
  lemma MessageSizes(x: Protocol.Setup, id: seq<Byte>, code: Uint16, name: seq<Byte>, key: seq<Byte>, p: Packet, size: Uint32, crc: Uint32,
                     aes: seq<Byte>, env: Env)
    requires |id| == |env.uuid| == UUID_SIZE && |name| <= NAME_FIELD && |key| <= KEY_FIELD && |p.path| == NAME_FIELD && |p.message| == C
    requires |aes| == x.aes && UUID_SIZE + |aes| < UINT32_SIZE && env.database
    ensures var request, answer := Protocol.WireSize(x, Protocol.Request(code, size)), Protocol.WireSize(x, Protocol.Answer(code, size));
            && |NameRequest(id, code, name)| == request + Protocol.WireSize(x, Protocol.Payload(Protocol.NameBody))
            && |KeyMessage(id, name, key)| == request + Protocol.WireSize(x, Protocol.Payload(Protocol.KeyBody))
            && |Framed(id, p)| == request + Protocol.WireSize(x, Protocol.Payload(Protocol.FileBody(p.current, p.total)))
            && |ReplyBytes(Reply(3, code, size))| == answer
            && |id| == Protocol.WireSize(x, Protocol.Payload(Protocol.UuidBody))
            && |AesAnswer(code, id, aes)| == answer + Protocol.WireSize(x, Protocol.Payload(Protocol.AesBody))
            && |CrcAnswer(id, size, name, crc)| == answer + Protocol.WireSize(x, Protocol.Payload(Protocol.CrcBody))
            && |AcceptAnswer(env)| == answer + Protocol.WireSize(x, Protocol.Payload(Protocol.IdBody))
    ensures forall u: Upload :: Sendable(u) ==>
              |NameMessage(u, code)| == Protocol.WireSize(x, Protocol.Request(code, size)) + Protocol.WireSize(x, Protocol.Payload(Protocol.PathBody))
  {
    hide ReplyBytes, HeaderBytes, PacketBytes, CrcMessageBytes;
  }

  // ---------- After a fallback ----------

  /** What createKey leaves in me.info: the name of transfer.info, whatever name the server was told. */
  function SavedAccount(c: Start, uuid: seq<Byte>): Account {
    Account(c.name, Hex(uuid))
  }

  lemma SignUpGrows(st: Store, reconnect: bool, sent: seq<Byte>, input: seq<Byte>, name: Name, uuid: Uuid, back: bool, rsa: Rsa, up: bool)
    requires uuid in st.open
    ensures |SignUp(st, reconnect, sent, input, name, uuid, back, rsa, up).store.list| == |st.list|
  {
    hide ReplyBytes, TakeKey;
  }

  /** After a fallback the server lists the client under the name of me.info, but me.info now holds the
      name of transfer.info. So the next reconnect is granted just when the two names are the same;
      otherwise it is refused if some client has the name of transfer.info, and falls back to yet
      another registration if none has. */
  lemma ReconnectAfterFallback(st: Store, reconnect: bool, c: Start, name: Name, uuid: seq<Byte>, next: seq<Byte>, rsa: Rsa, up: bool, tail: seq<Byte>)
    requires Consistent(st) && Fresh(st, uuid) && |uuid| == UUID_SIZE && !NameTaken(st.list, name)
    requires |c.name| < NAME_FIELD && 0 !in c.name
    requires rsa(c.publicKey).Some? && UUID_SIZE + |rsa(c.publicKey).value| < UINT32_SIZE
    ensures var st' := st.(list := st.list + [Entry(name, uuid, c.publicKey, [])]);
            var a := SavedAccount(c, uuid);
            var g := Greet(st', reconnect, [], NameRequest(uuid, RECONNECT_REQUEST, a.name) + tail, next, rsa, up);
            && FromHex(a.uuid, UUID_SIZE) == Some(uuid)
            && if c.name == name then g.ending == Ready(uuid, tail) && g.store == st'
               else if NameTaken(st.list, c.name) then g.ending == Denied && g.store == st'
               else |g.store.list| == |st'.list| + 1
  {
    hide NameRequest, TakeMessage, UntilNul, ReplyBytes, Hex, FromHex, Search, SignUp;
    var st' := st.(list := st.list + [Entry(name, uuid, c.publicKey, [])]);
    HexRoundTrip(uuid, Hex(uuid));
    TakeRequest(uuid, RECONNECT_REQUEST, c.name, tail);
    ListedByFallback(st, name, uuid, c.publicKey, c.name);
    if c.name == name {
      SearchIsOutcome(st', c.name, uuid, Granted(|st.list|));
    } else if NameTaken(st.list, c.name) {
      SearchIsOutcome(st', c.name, uuid, Refused);
    } else {
      SearchIsOutcome(st', c.name, uuid, Renewed);
      SignUpGrows(Append(st', c.name, next, true), reconnect, [], tail, c.name, next, true, rsa, up);
    }
  }

  lemma ListedByFallback(st: Store, name: Name, uuid: seq<Byte>, key: seq<Byte>, asked: Name)
    requires Consistent(st) && Fresh(st, uuid) && !NameTaken(st.list, name)
    ensures var st' := st.(list := st.list + [Entry(name, uuid, key, [])]);
            && Consistent(st')
            && ReconnectOutcome(st'.list, asked, uuid,
                 if asked == name then Granted(|st.list|) else if NameTaken(st.list, asked) then Refused else Renewed)
  {
    var st' := st.(list := st.list + [Entry(name, uuid, key, [])]);
    forall id | id in st.rows ensures Listed(st'.list, id, st.rows[id]) {
      var i :| 0 <= i < |st.list| && st.list[i].uuid == id && st.list[i].name == st.rows[id].name && st.list[i].key == st.rows[id].key;
      assert st'.list[i] == st.list[i];
    }
    assert forall i :: 0 <= i < |st.list| ==> st'.list[i] == st.list[i];
    if asked != name && NameTaken(st.list, asked) {
      var i :| 0 <= i < |st.list| && st.list[i].name == asked;
      assert st'.list[i].name == asked;
    }
  }

  // ---------- Whole sessions ----------

  /** The server, once it has the AES key, and a file whose last packet is full enough. */
  ghost predicate FileGoesThrough(env: Env, enc: seq<Byte> -> seq<Byte>, text: seq<Byte>, filePath: seq<Byte>, uuid: seq<Byte>) {
    && env.database && (forall i: nat :: env.writable(i)) && IsBlockMode(enc, env.dec)
    && Transferable(enc, text, filePath, uuid) && 0 !in BaseName(filePath)
    && var n := |Encrypt(enc, text)|; LastSize(n) >= PacketCount(n) - 1
  }

  /** What the client sends after the handshake, if one round is enough. */
  ghost function FileBytes(enc: seq<Byte> -> seq<Byte>, text: seq<Byte>, filePath: seq<Byte>, uuid: seq<Byte>): seq<Byte>
    requires |filePath| < NPOS
  {
    var u := MakeUpload(enc, text, filePath, uuid);
    if u.Some? && Sendable(u.value) then Transmission(u.value, 0) + NameMessage(u.value, CORRECT_CRC) else []
  }

  /** The part of both theorems below that comes after the handshake. */
  lemma FileIsServed(env: Env, enc: seq<Byte> -> seq<Byte>, text: seq<Byte>, filePath: seq<Byte>, uuid: seq<Byte>, aesKey: seq<Byte>, st: Store)
    requires FileGoesThrough(env, enc, text, filePath, uuid)
    ensures |filePath| < NPOS && env.database
    ensures var u := MakeUpload(enc, text, filePath, uuid);
            && u.Some? && Sendable(u.value)
            && var file := FileBytes(enc, text, filePath, uuid);
               var s := Serve(env.(uuid := uuid), file, 0);
            && s.stored == [text] && s.ending == Finished([]) && SendFileRun(u.value, s.output) == (file, Some((true, [])))
            && Recorded(st, uuid, s.updates, aesKey, true) == Record(st, uuid, BaseName(filePath), true, aesKey, true)
  {
    hide Serve, SendFileRun, Transmission, NameMessage, MakeUpload, Encrypt, Record, Recorded, BaseName;
    FileArrives(env.(uuid := uuid), enc, text, filePath, uuid);
    RecordedOnce(st, uuid, Update(BaseName(filePath), true), aesKey, true);
  }

  /** A whole first session over a faithful connection: a new client registers and sends a file. On
      what the client sends, the server stores exactly the file, and its list and tables hold the
      client, its file, and that this is verified; on what the server answers, the client sends just
      that. Both streams are read to their ends. */
  lemma FirstSession(st: Store, reconnect: bool, c: Start, uuid: seq<Byte>, rsa: Rsa, aes: seq<Byte>, env: Env, aesKey: seq<Byte>,
                     enc: seq<Byte> -> seq<Byte>, text: seq<Byte>, filePath: seq<Byte>)
    requires NewClient(st, c, uuid, rsa, aes) && FileGoesThrough(env, enc, text, filePath, uuid)
    ensures var u := MakeUpload(enc, text, filePath, uuid);
            && u.Some? && Sendable(u.value)
            && var hello := NameRequest(Zeros(UUID_SIZE), REGISTRATION_REQUEST, c.name) + KeyMessage(uuid, c.name, c.publicKey);
               var file, path := FileBytes(enc, text, filePath, uuid), BaseName(filePath);
               var t := Session(st, reconnect, [], hello + file, uuid, rsa, true, env, aesKey);
               var s := Begin(c, t.output);
            && t.stored == [text] && t.rest == Some([]) && Consistent(t.store)
            && t.store.list == st.list + [Entry(c.name, uuid, c.publicKey, [Sent(path)])]
            && t.store.rows == st.rows[uuid := Row(c.name, c.publicKey, Some(aesKey))]
            && t.store.files == st.files[(uuid, TableName(path)) := true]
            && s.Connected? && s == Connected(hello, Hex(uuid), aes, s.rest) && FromHex(s.uuid, UUID_SIZE) == Some(uuid)
            && SendFileRun(u.value, s.rest) == (file, Some((true, [])))
  {
    hide Greet, Begin, Serve, SendFileRun, FileBytes, NameRequest, KeyMessage, Consistent, Fresh, NameTaken, MakeUpload,
      FromHex, Hex, Record, Recorded, FileGoesThrough;
    var hello := NameRequest(Zeros(UUID_SIZE), REGISTRATION_REQUEST, c.name) + KeyMessage(uuid, c.name, c.publicKey);
    FileIsServed(env, enc, text, filePath, uuid, aesKey, st);
    var file := FileBytes(enc, text, filePath, uuid);
    var s := Serve(env.(uuid := uuid), file, 0);
    RegistrationAgrees(st, reconnect, c, uuid, rsa, aes, file, s.output);
    var g := Greet(st, reconnect, [], hello + file, uuid, rsa, true);
    FileIsServed(env, enc, text, filePath, uuid, aesKey, g.store);
    FirstRecord(st, g.store, c.name, uuid, c.publicKey, BaseName(filePath), aesKey);
    HexRoundTrip(uuid, Hex(uuid));
  }

  lemma FirstRecord(st: Store, signed: Store, name: Name, uuid: seq<Byte>, key: seq<Byte>, path: Name, aesKey: seq<Byte>)
    requires Consistent(st) && Fresh(st, uuid) && !NameTaken(st.list, name)
    requires signed == Store(st.list + [Entry(name, uuid, key, [])], st.rows[uuid := Row(name, key, None)], st.files, st.open)
    ensures var st' := Record(signed, uuid, path, true, aesKey, true);
            && Consistent(st')
            && st'.list == st.list + [Entry(name, uuid, key, [Sent(path)])]
            && st'.rows == st.rows[uuid := Row(name, key, Some(aesKey))]
            && st'.files == st.files[(uuid, TableName(path)) := true]
  {
    hide Distinct, Listed, NameTaken, AddFile, TableName;
    ListedByFallback(st, name, uuid, key, name);
    WithRow(st, signed, name, uuid, key);
    assert signed.list[|st.list|] == Entry(name, uuid, key, []);
    RecordKeeps(signed, |st.list|, path, true, aesKey, true);
    FileOfLast(st.list, Entry(name, uuid, key, []), path);
    assert [] + [Sent(path)] == [Sent(path)];
    var st' := Record(signed, uuid, path, true, aesKey, true);
    assert st'.rows == st.rows[uuid := Row(name, key, Some(aesKey))];
  }

  lemma FileOfLast(list: seq<Entry>, e: Entry, path: Name)
    requires forall i :: 0 <= i < |list| ==> list[i].uuid != e.uuid
    ensures AddFile(list + [e], e.uuid, path) == list + [e.(files := e.files + [Sent(path)])]
  {
    var all := list + [e];
    assert forall i :: 0 <= i < |list| ==> all[i] == list[i];
  }

  lemma WithRow(st: Store, signed: Store, name: Name, uuid: seq<Byte>, key: seq<Byte>)
    requires Consistent(st.(list := signed.list)) && Fresh(st, uuid)
    requires signed == Store(st.list + [Entry(name, uuid, key, [])], st.rows[uuid := Row(name, key, None)], st.files, st.open)
    ensures Consistent(signed)
  {
    hide Distinct;
    assert signed.list[|st.list|] == Entry(name, uuid, key, []);
    forall id | id in signed.rows ensures Listed(signed.list, id, signed.rows[id]) {
      if id != uuid { assert Listed(signed.list, id, st.rows[id]); }
    }
  }

  /** A client with a row can come back at any time: after whatever sessions and restarts, a reconnect
      under its name and id is granted its own id, with an AES key under its own public key. */
  lemma AlwaysWelcomeBack(was: Store, now: Store, reconnect: bool, c: Start, uuid: seq<Byte>, next: seq<Byte>,
                          rsa: Rsa, aes: seq<Byte>, up: bool, tail: seq<Byte>, tail': seq<Byte>)
    requires Later(was, now) && Consistent(was) && uuid in was.rows && |uuid| == UUID_SIZE
    requires var row := was.rows[uuid];
             && ValidStart(c) && c.account == Some(Account(row.name, Hex(uuid))) && |row.name| < NAME_FIELD && 0 !in row.name
             && rsa(row.key) == Some(aes) && UUID_SIZE + |aes| < UINT32_SIZE
    ensures var hello := NameRequest(uuid, RECONNECT_REQUEST, c.account.value.name);
            var g := Greet(now, reconnect, [], hello + tail, next, rsa, up);
            && g.ending == Ready(uuid, tail) && g.store == now && Consistent(now)
            && uuid in now.rows && (exists e :: e in now.list && e.uuid == uuid)
            && Begin(c, g.output + tail') == Connected(hello, Hex(uuid), aes, tail')
  {
    hide Greet, Begin, NameRequest, Hex, Distinct, Later;
    LaterKeepsRows(was, now, uuid);
    assert Listed(now.list, uuid, now.rows[uuid]);
    var row := now.rows[uuid];
    var i :| 0 <= i < |now.list| && now.list[i].uuid == uuid && now.list[i].name == row.name && now.list[i].key == row.key;
    ReconnectAgrees(now, reconnect, c, i, next, rsa, aes, up, tail, tail');
  }

  /** And it can then send another file, which is stored and recorded just as the first. */
  lemma LaterSession(was: Store, now: Store, reconnect: bool, c: Start, uuid: seq<Byte>, next: seq<Byte>, rsa: Rsa,
                     aes: seq<Byte>, up: bool, env: Env, aesKey: seq<Byte>, enc: seq<Byte> -> seq<Byte>, text: seq<Byte>, filePath: seq<Byte>)
    requires Later(was, now) && Consistent(was) && uuid in was.rows && |uuid| == UUID_SIZE
    requires var row := was.rows[uuid];
             && ValidStart(c) && c.account == Some(Account(row.name, Hex(uuid))) && |row.name| < NAME_FIELD && 0 !in row.name
             && rsa(row.key) == Some(aes) && UUID_SIZE + |aes| < UINT32_SIZE
    requires FileGoesThrough(env, enc, text, filePath, uuid)
    ensures var u := MakeUpload(enc, text, filePath, uuid);
            && u.Some? && Sendable(u.value)
            && var hello := NameRequest(uuid, RECONNECT_REQUEST, c.account.value.name);
               var file := FileBytes(enc, text, filePath, uuid);
               var t := Session(now, reconnect, [], hello + file, next, rsa, up, env, aesKey);
               var s := Begin(c, t.output);
            && t.stored == [text] && t.rest == Some([])
            && t.store == Record(now, uuid, BaseName(filePath), true, aesKey, true) && Consistent(t.store)
            && s.Connected? && s == Connected(hello, Hex(uuid), aes, s.rest)
            && SendFileRun(u.value, s.rest) == (file, Some((true, [])))
  {
    hide Greet, Begin, Serve, SendFileRun, FileBytes, NameRequest, Consistent, MakeUpload, Hex, Record, Recorded, FileGoesThrough, Later;
    FileIsServed(env, enc, text, filePath, uuid, aesKey, now);
    var file := FileBytes(enc, text, filePath, uuid);
    var s := Serve(env.(uuid := uuid), file, 0);
    AlwaysWelcomeBack(was, now, reconnect, c, uuid, next, rsa, aes, up, file, s.output);
    var e :| e in now.list && e.uuid == uuid;
    var i :| 0 <= i < |now.list| && now.list[i] == e;
    RecordKeeps(now, i, BaseName(filePath), true, aesKey, true);
  }

  /** One file more in the list of the client with this id, and nothing else. */
  ghost predicate GotFile(list: seq<Entry>, list': seq<Entry>, uuid: seq<Byte>, path: Name) {
    exists i :: 0 <= i < |list| && list[i].uuid == uuid && list' == list[i := list[i].(files := list[i].files + [Sent(path)])]
  }

  /** Over a channel that may damage the packets: the rounds go on as long as they must, every delivery
      is stored, and both streams are read to their ends unless the database has failed. A file that is
      right in the end joins the list of this client, under the path it came with, whether or not the
      tables can be written; one that is given up leaves the list as it was. */
  lemma SessionOverChannel(was: Store, now: Store, reconnect: bool, c: Start, uuid: seq<Byte>, next: seq<Byte>, rsa: Rsa, aes: seq<Byte>,
                           up: bool, env: Env, aesKey: seq<Byte>, u: Upload, ds: seq<Delivery>)
    requires Later(was, now) && Consistent(was) && uuid in was.rows && |uuid| == UUID_SIZE
    requires var row := was.rows[uuid];
             && ValidStart(c) && c.account == Some(Account(row.name, Hex(uuid))) && |row.name| < NAME_FIELD && 0 !in row.name
             && rsa(row.key) == Some(aes) && UUID_SIZE + |aes| < UINT32_SIZE
    requires Sendable(u) && (forall j: nat :: env.writable(j)) && DeliveriesOfRun(env.(uuid := uuid), u, ds)
    ensures var hello := NameRequest(uuid, RECONNECT_REQUEST, c.account.value.name);
            var t := Session(now, reconnect, [], hello + Conversation(u, ds), next, rsa, up, env, aesKey);
            var s, last := Begin(c, t.output), ds[|ds| - 1];
            var success := Matches(u, last);
            && t.stored == Texts(ds) && t.rest == Some([]) && Consistent(t.store)
            && s.Connected? && s == Connected(hello, Hex(uuid), aes, s.rest)
            && var (sent, end) := SendFileRun(u, s.rest);
            && sent == Rounds(u, |ds|) + NameMessage(u, if success then CORRECT_CRC else FAILED_AND_FINISH)
            && end.Some? && end.value.0 == success && (env.database ==> end.value.1 == [])
            && t.store.files == (if env.database then now.files[(uuid, TableName(last.path)) := success] else now.files)
            && (!success ==> t.store.list == now.list)
            && (success ==> GotFile(now.list, t.store.list, uuid, last.path))
  {
    hide Greet, Begin, Serve, SendFileRun, Conversation, Arrives, NameRequest, Consistent, Hex, Record, Recorded, Later,
      Rounds, NameMessage, TableName, Matches;
    var env', last := env.(uuid := uuid), ds[|ds| - 1];
    var s, success := Serve(env', Conversation(u, ds), 0), Matches(u, last);
    SendFileAgrees(env', u, ds);
    AlwaysWelcomeBack(was, now, reconnect, c, uuid, next, rsa, aes, up, Conversation(u, ds), s.output);
    var e :| e in now.list && e.uuid == uuid;
    var i :| 0 <= i < |now.list| && now.list[i] == e;
    RecordedOnce(now, uuid, Update(last.path, success), aesKey, env.database);
    TransferRecorded(now, i, last.path, success, aesKey, env.database);
  }

  lemma TransferRecorded(now: Store, i: nat, path: Name, verified: bool, aesKey: seq<Byte>, ok: bool)
    requires Consistent(now) && i < |now.list|
    ensures var id, b := now.list[i].uuid, Record(now, now.list[i].uuid, path, verified, aesKey, ok);
            && Consistent(b) && b.files == (if ok then now.files[(id, TableName(path)) := verified] else now.files)
            && b.list == if verified then now.list[i := now.list[i].(files := now.list[i].files + [Sent(path)])] else now.list
  {
    hide Record, Consistent, TableName;
    var b := Record(now, now.list[i].uuid, path, verified, aesKey, ok);
    RecordKeeps(now, i, path, verified, aesKey, ok);
    RecordChanges(now, i, path, verified, aesKey, ok, b);
  }

  /** The list and the tables after the session of FirstSession. */
  ghost function AfterFirst(st: Store, reconnect: bool, c: Start, uuid: seq<Byte>, rsa: Rsa, env: Env, aesKey: seq<Byte>,
                            enc: seq<Byte> -> seq<Byte>, text: seq<Byte>, filePath: seq<Byte>): Store
    requires |uuid| == UUID_SIZE && |c.name| <= NAME_FIELD && |c.publicKey| <= KEY_FIELD && |filePath| < NPOS
  {
    var hello := NameRequest(Zeros(UUID_SIZE), REGISTRATION_REQUEST, c.name) + KeyMessage(uuid, c.name, c.publicKey);
    Session(st, reconnect, [], hello + FileBytes(enc, text, filePath, uuid), uuid, rsa, true, env, aesKey).store
  }

  lemma RowAfterFirst(st: Store, reconnect: bool, c: Start, uuid: seq<Byte>, rsa: Rsa, aes: seq<Byte>, env: Env, aesKey: seq<Byte>,
                      enc: seq<Byte> -> seq<Byte>, text: seq<Byte>, filePath: seq<Byte>)
    requires NewClient(st, c, uuid, rsa, aes) && FileGoesThrough(env, enc, text, filePath, uuid)
    ensures var was := AfterFirst(st, reconnect, c, uuid, rsa, env, aesKey, enc, text, filePath);
            Consistent(was) && uuid in was.rows && was.rows[uuid] == Row(c.name, c.publicKey, Some(aesKey))
  {
    hide Session, Begin, FileBytes, NameRequest, KeyMessage, MakeUpload, SendFileRun, Hex, FromHex, Consistent, Fresh, NameTaken;
    FirstSession(st, reconnect, c, uuid, rsa, aes, env, aesKey, enc, text, filePath);
  }

  /** Two sessions: what the first one leaves in me.info lets the client reconnect in any later state. */
  lemma SecondSession(st: Store, reconnect: bool, c: Start, uuid: seq<Byte>, rsa: Rsa, aes: seq<Byte>, env: Env, aesKey: seq<Byte>,
                      enc: seq<Byte> -> seq<Byte>, text: seq<Byte>, filePath: seq<Byte>,
                      now: Store, reconnect': bool, again: Start, next: seq<Byte>, rsa': Rsa, aes': seq<Byte>, up: bool,
                      tail: seq<Byte>, tail': seq<Byte>)
    requires NewClient(st, c, uuid, rsa, aes) && FileGoesThrough(env, enc, text, filePath, uuid)
    requires ValidStart(again) && again.account == Some(SavedAccount(c, uuid))
    requires rsa'(c.publicKey) == Some(aes') && UUID_SIZE + |aes'| < UINT32_SIZE
    ensures var hello := NameRequest(uuid, RECONNECT_REQUEST, c.name);
            var g := Greet(now, reconnect', [], hello + tail, next, rsa', up);
            Later(AfterFirst(st, reconnect, c, uuid, rsa, env, aesKey, enc, text, filePath), now) ==>
              g.ending == Ready(uuid, tail) && g.store == now && Begin(again, g.output + tail') == Connected(hello, Hex(uuid), aes', tail')
  {
    hide AfterFirst, Greet, Begin, NameRequest, Hex, Later, Consistent, Fresh, NameTaken, Encrypt, BaseName;
    RowAfterFirst(st, reconnect, c, uuid, rsa, aes, env, aesKey, enc, text, filePath);
    var was := AfterFirst(st, reconnect, c, uuid, rsa, env, aesKey, enc, text, filePath);
    if Later(was, now) {
      AlwaysWelcomeBack(was, now, reconnect', again, uuid, next, rsa', aes', up, tail, tail');
    }
  }
}
