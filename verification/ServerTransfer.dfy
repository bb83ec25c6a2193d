/** The server's side of a file transfer: reading the packets, storing the file, answering with the
    checksum, and repeating until the client is content or gives up. */
module ServerTransfer {
  import opened Bytes
  import opened Cipher
  import opened Cksum
  import opened Connection
  import opened Names
  import opened Options
  import opened Packets
  import opened Registry
  import opened ServerState
  import opened Text
  import opened Wire

  // ---------- One transmission ----------

  /** One transmission read from the stream, or Broken when an exception ends the session. */
  datatype Received = Broken | Received(id: seq<Byte>, path: seq<Byte>, whole: seq<Byte>, rest: seq<Byte>)

  datatype Message = Message(header: Header, payload: seq<Byte>, rest: seq<Byte>)

  /** A header, the payload it announces, and what follows; None when the stream breaks off. */
  function TakeMessage(input: seq<Byte>): (m: Option<Message>)
    ensures m.Some? ==> |m.value.rest| < |input| && |m.value.header.id| == UUID_SIZE
  {
    if |input| < HEADER_SIZE then None
    else
      var h, body := UnpackHeader(input[..HEADER_SIZE]), input[HEADER_SIZE..];
      if |body| < h.size then None else Some(Message(h, body[..h.size], body[h.size..]))
  }

  /** The inner loop of get_file as a function of the bytes that arrive. */
  function ReadFile(input: seq<Byte>, whole: seq<Byte>): (r: Received)
    ensures r.Received? ==> |r.rest| < |input| && |r.id| == UUID_SIZE && |r.path| <= NAME_FIELD
    decreases |input|
  {
    match TakeMessage(input)
    case None => Broken
    case Some(m) =>
      match UnpackPacket(m.payload)
      case None => Broken
      case Some(p) =>
        if p.current != p.total then ReadFile(m.rest, whole + p.message)
        else if |p.message| == 0 then Broken
        else Received(m.header.id, UntilNul(p.path), whole + LastPart(p), m.rest)
  }

  method ReceiveHeader(sock: Socket) returns (h: Option<Header>)
    modifies sock`incoming
    ensures var input := old(sock.incoming);
            if |input| < HEADER_SIZE then h == None
            else h == Some(UnpackHeader(input[..HEADER_SIZE])) && sock.incoming == input[HEADER_SIZE..]
  {
    var data := ReceiveData(sock, HEADER_SIZE);
    if data.None? { return None; }
    assert old(sock.incoming)[..HEADER_SIZE] == data.value;
    h := Some(UnpackHeader(data.value));
  }

  method ReceiveMessage(sock: Socket) returns (m: Option<(Header, seq<Byte>)>)
    modifies sock`incoming
    ensures match TakeMessage(old(sock.incoming))
            case None => m == None
            case Some(t) => m == Some((t.header, t.payload)) && sock.incoming == t.rest
  {
    var h := ReceiveHeader(sock);
    if h.None? { return None; }
    ghost var body := sock.incoming;
    var data := ReceiveData(sock, h.value.size);
    if data.None? { return None; }
    assert body[..h.value.size] == data.value;
    m := Some((h.value, data.value));
  }

  method ReceiveFile(sock: Socket) returns (r: Option<(seq<Byte>, seq<Byte>, seq<Byte>)>)
    modifies sock`incoming
    ensures var spec := ReadFile(old(sock.incoming), []);
            if spec.Broken? then r == None else r == Some((spec.id, spec.path, spec.whole)) && sock.incoming == spec.rest
  {
    var whole := [];
    while true
      invariant ReadFile(sock.incoming, whole) == ReadFile(old(sock.incoming), [])
      decreases |sock.incoming|
    {
      var m := ReceiveMessage(sock);
      if m.None? { return None; }
      var (h, data) := m.value;
      var unpacked := UnpackPacket(data);
      if unpacked.None? { return None; }
      var p := unpacked.value;
      if p.current == p.total {
        if |p.message| == 0 { return None; }
        var message := p.message;
        if p.after % |p.message| != 0 { message := message[..p.after % |p.message|]; }
        whole := whole + message;
        return Some((h.id, UntilNul(p.path), whole));
      }
      whole := whole + p.message;
    }
  }

  // ---------- The whole exchange ----------

  /** What the session meets outside: the block cipher under its key, whether the file of each
      round can be written, whether the database can be, and the name the file is stored under. */
  datatype Env = Env(dec: seq<Byte> -> seq<Byte>, writable: nat -> bool, database: bool, uuid: seq<Byte>, fileName: string)

  /** A session that finishes leaves the rest of the stream unread. */
  datatype Ending = Finished(rest: seq<Byte>) | Raised

  /** Everything a session does from get_file on: bytes sent, files written, what it records about the
      transfer, and how it ends. */
  datatype Served = Served(output: seq<Byte>, stored: seq<seq<Byte>>, updates: seq<Update>, ending: Ending)

  function After(output: seq<Byte>, stored: seq<seq<Byte>>, s: Served): Served {
    s.(output := output + s.output, stored := stored + s.stored)
  }

  predicate Closing(code: Uint16) {
    code == CORRECT_CRC || code == FAILED_AND_FINISH
  }

  /** The message of send_packet; the checksum goes through the text of readfile. */
  function CrcAnswer(id: seq<Byte>, size: Uint32, path: seq<Byte>, crc: Uint32): seq<Byte>
    requires |id| == UUID_SIZE && |path| <= NAME_FIELD
  {
    ReplyBytes(Reply(3, SEND_CRC, CRC_MESSAGE_SIZE)) + CrcMessageBytes(CrcMessage(id, size, Field(path, NAME_FIELD), crc))
  }

  function AcceptAnswer(env: Env): seq<Byte> {
    ReplyBytes(Reply(3, ACCEPT_MESSAGE, UUID_SIZE)) + env.uuid
    + if env.database then [] else ReplyBytes(Reply(3, GENERIC_ERROR, 0))
  }

  /** get_file as a function of the bytes that arrive. */
  function Serve(env: Env, input: seq<Byte>, round: nat): Served
    decreases |input|
  {
    match ReadFile(input, [])
    case Broken => Served([], [], [], Raised)
    case Received(id, path, whole, rest) =>
      match Decrypt(env.dec, whole)
      case None => Served([], [], [], Raised)
      case Some(text) =>
        if !env.writable(round) then Served(ReplyBytes(Reply(3, GENERIC_ERROR, 0)), [], [], Raised)
        else if |whole| >= UINT32_SIZE then Served(ReplyBytes(Reply(3, SEND_CRC, CRC_MESSAGE_SIZE)), [text], [], Raised)
        else After(CrcAnswer(id, |whole|, path, PosixCrc(text)), [text], ServeAnswer(env, rest, path, round))
  }

  /** get_answer, and the next round if there is one. */
  function ServeAnswer(env: Env, input: seq<Byte>, path: seq<Byte>, round: nat): Served
    decreases |input|
  {
    match TakeMessage(input)
    case None => Served([], [], [], Raised)
    case Some(m) =>
      var code := m.header.code;
      if !Closing(code) then Serve(env, m.rest, round + 1)
      else Served(AcceptAnswer(env), [], [Update(path, code == CORRECT_CRC)], Finished(m.rest))
  }

  /** my_client and the list and tables it is in, while the session receives its file. */
  class FileSession {
    const sock: Socket
    const env: Env
    const server: Server
    const client: Client
    const aesKey: seq<Byte>
    var stored: seq<seq<Byte>>

    constructor (sock: Socket, env: Env, server: Server, client: Client, aesKey: seq<Byte>)
      ensures this.sock == sock && this.env == env && this.server == server && this.client == client && this.aesKey == aesKey
      ensures stored == []
    {
      this.sock, this.env, this.server, this.client, this.aesKey := sock, env, server, client, aesKey;
      stored := [];
    }

    ghost predicate Ready()
      reads server, server.db, server.listOfClients
    {
      server.Valid() && client in server.listOfClients && client.uuid == env.uuid
    }

    /** The list and the tables after some updates of this client. */
    ghost function Updated(st: Store, updates: seq<Update>): Store {
      Recorded(st, client.uuid, updates, aesKey, env.database)
    }

    /** Decryption comes before the file is opened, so a message that does not decrypt is never stored. */
    method CreateFile(whole: seq<Byte>, round: nat) returns (line: Option<string>)
      modifies this`stored, sock`outgoing
      ensures var text := Decrypt(env.dec, whole);
              if text.Some? && env.writable(round) then
                && line == Some(ChecksumLine(PosixCrc(text.value), |text.value|, env.fileName))
                && stored == old(stored) + [text.value] && sock.outgoing == old(sock.outgoing)
              else
                && line == None && stored == old(stored)
                && sock.outgoing == old(sock.outgoing) + if text.Some? then ReplyBytes(Reply(3, GENERIC_ERROR, 0)) else []
    {
      var text := Decrypt(env.dec, whole);
      if text.None? { return None; }
      if !env.writable(round) {
        sock.SendAll(ReplyBytes(Reply(3, GENERIC_ERROR, 0)));
        return None;
      }
      stored := stored + [text.value];
      var crc := MemcrcPython(text.value);
      line := Some(ChecksumLine(crc, |text.value|, env.fileName));
    }

    /** The number sent is the first field of the line, read back as a number. */
    method SendPacket(ghost crc: Uint32, line: string, id: seq<Byte>, whole: seq<Byte>, path: seq<Byte>) returns (ok: bool)
      requires |id| == UUID_SIZE && |path| <= NAME_FIELD
      requires exists size :: line == ChecksumLine(crc, size, env.fileName)
      modifies sock`outgoing
      ensures ok <==> |whole| < UINT32_SIZE
      ensures sock.outgoing == old(sock.outgoing)
                + if ok then CrcAnswer(id, |whole|, path, crc) else ReplyBytes(Reply(3, SEND_CRC, CRC_MESSAGE_SIZE))
    {
      hide ChecksumLine, FirstField, CrcMessageBytes, Decimal;
      ghost var size :| line == ChecksumLine(crc, size, env.fileName);
      DecimalFirst(crc, size, env.fileName);
      var field := FirstField(line).value;
      sock.SendAll(ReplyBytes(Reply(3, SEND_CRC, CRC_MESSAGE_SIZE)));
      if |whole| >= UINT32_SIZE { return false; }
      var message := CrcMessageBytes(CrcMessage(id, |whole|, Field(path, NAME_FIELD), ParseDecimal(field)));
      sock.SendAll(message);
      ok := true;
    }

    /** The branch of get_answer for a closing message. */
    method CloseTransfer(path: seq<Byte>, verified: bool)
      requires Ready()
      modifies sock`outgoing, client`files, server.db
      ensures Ready()
      ensures sock.outgoing == old(sock.outgoing) + AcceptAnswer(env)
      ensures server.View() == Updated(old(server.View()), [Update(path, verified)])
    {
      hide Record, Recorded, Entries, Consistent, ReplyBytes;
      RecordedOnce(server.View(), client.uuid, Update(path, verified), aesKey, env.database);
      ghost var st := server.View();
      sock.SendAll(ReplyBytes(Reply(3, ACCEPT_MESSAGE, UUID_SIZE)));
      sock.SendAll(client.uuid);
      assert sock.outgoing == old(sock.outgoing) + (ReplyBytes(Reply(3, ACCEPT_MESSAGE, UUID_SIZE)) + env.uuid);
      assert server.View() == st;
      var result := server.RecordTransfer(client, path, verified, aesKey, env.database);
      if !result { sock.SendAll(ReplyBytes(Reply(3, GENERIC_ERROR, 0))); }
    }

    lemma NoUpdate(st: Store)
      ensures Updated(st, []) == st
    {
    }

    /** The session is over when this finds no answer or a closing one; otherwise nothing has changed
        but the stream, and the next round follows. */
    method GetAnswer(path: seq<Byte>, ghost round: nat) returns (code: Option<Uint16>)
      requires Ready()
      modifies sock, client`files, server.db
      ensures Ready()
      ensures var s := ServeAnswer(env, old(sock.incoming), path, round);
              if code.Some? && !Closing(code.value) then
                && s == Serve(env, sock.incoming, round + 1) && |sock.incoming| < |old(sock.incoming)|
                && sock.outgoing == old(sock.outgoing) && server.View() == old(server.View())
              else
                && sock.outgoing == old(sock.outgoing) + s.output && s.stored == []
                && server.View() == Updated(old(server.View()), s.updates)
                && s.ending == if code.None? then Raised else Finished(sock.incoming)
    {
      hide TakeMessage, Serve, Updated, Entries, Consistent, AcceptAnswer;
      ghost var st := server.View();
      NoUpdate(st);
      var m := ReceiveMessage(sock);
      assert server.View() == st;
      if m.None? { return None; }
      var h := m.value.0;
      if h.code == CORRECT_CRC || h.code == FAILED_AND_FINISH { CloseTransfer(path, h.code == CORRECT_CRC); }
      code := Some(h.code);
    }

    /** get_file up to the answer: read the packets, store the file, send the checksum. */
    method StoreAndReport(round: nat) returns (path: Option<seq<Byte>>, ghost answer: seq<Byte>, ghost text: seq<Byte>)
      modifies this`stored, sock
      ensures var s := Serve(env, old(sock.incoming), round);
              match path
              case None =>
                && sock.outgoing == old(sock.outgoing) + s.output && stored == old(stored) + s.stored
                && s.updates == [] && s.ending == Raised
              case Some(p) =>
                && sock.outgoing == old(sock.outgoing) + answer && stored == old(stored) + [text]
                && |sock.incoming| < |old(sock.incoming)|
                && s == After(answer, [text], ServeAnswer(env, sock.incoming, p, round))
    {
      hide ReadFile, CrcAnswer, Decrypt, ChecksumLine, PosixCrc, ServeAnswer;
      answer, text := [], [];
      var r := ReceiveFile(sock);
      if r.None? { return None, answer, text; }
      var (id, name, whole) := r.value;
      var line := CreateFile(whole, round);
      if line.None? { return None, answer, text; }
      text := Decrypt(env.dec, whole).value;
      var ok := SendPacket(PosixCrc(text), line.value, id, whole, name);
      if !ok { return None, answer, text; }
      answer := CrcAnswer(id, |whole|, name, PosixCrc(text));
      path := Some(name);
    }

    /** One turn of the outer loop; ending is None when the client is going to send again. */
    method Turn(round: nat) returns (ending: Option<Ending>, ghost answer: seq<Byte>, ghost text: seq<Byte>)
      requires Ready()
      modifies this`stored, sock, client`files, server.db
      ensures Ready()
      ensures var s := Serve(env, old(sock.incoming), round);
              match ending
              case Some(e) =>
                && sock.outgoing == old(sock.outgoing) + s.output && stored == old(stored) + s.stored
                && server.View() == Updated(old(server.View()), s.updates)
                && e == s.ending && (e.Finished? ==> sock.incoming == e.rest)
              case None =>
                && sock.outgoing == old(sock.outgoing) + answer && stored == old(stored) + [text]
                && server.View() == old(server.View())
                && |sock.incoming| < |old(sock.incoming)|
                && s == After(answer, [text], Serve(env, sock.incoming, round + 1))
    {
      hide Serve, ServeAnswer, Updated, Entries, Consistent;
      NoUpdate(server.View());
      ghost var st := server.View();
      var path;
      path, answer, text := StoreAndReport(round);
      assert server.View() == st;
      if path.None? { return Some(Raised), answer, text; }
      var code := GetAnswer(path.value, round);
      if code.None? { return Some(Raised), answer, text; }
      if code.value == CORRECT_CRC || code.value == FAILED_AND_FINISH { return Some(Finished(sock.incoming)), answer, text; }
      ending := None;
    }

    method GetFile() returns (ending: Ending)
      requires Ready()
      modifies this`stored, sock, client`files, server.db
      ensures Ready()
      ensures var s := Serve(env, old(sock.incoming), 0);
              && sock.outgoing == old(sock.outgoing) + s.output && stored == old(stored) + s.stored
              && server.View() == Updated(old(server.View()), s.updates)
              && ending == s.ending && (ending.Finished? ==> sock.incoming == ending.rest)
    {
      hide Serve, Updated, Entries, Consistent;
      ghost var s := Serve(env, sock.incoming, 0);
      ghost var output, written := sock.outgoing + s.output, stored + s.stored;
      var round := 0;
      while true
        invariant Ready() && server.View() == old(server.View())
        invariant output == sock.outgoing + Serve(env, sock.incoming, round).output
        invariant written == stored + Serve(env, sock.incoming, round).stored
        invariant s.updates == Serve(env, sock.incoming, round).updates
        invariant s.ending == Serve(env, sock.incoming, round).ending
        decreases |sock.incoming|
      {
        ghost var sent, held := sock.outgoing, stored;
        var end, answer, text := Turn(round);
        if end.Some? { return end.value; }
        round := round + 1;
        ghost var next := Serve(env, sock.incoming, round);
        Regroup(sent, answer, next.output);
        Regroup(held, [text], next.stored);
      }
    }
  }

  lemma Regroup<T>(a: seq<T>, b: seq<T>, c: seq<T>)
    ensures a + (b + c) == (a + b) + c
  {
  }

  lemma DecimalFirst(crc: nat, size: nat, name: string)
    ensures FirstField(ChecksumLine(crc, size, name)) == Some(Decimal(crc)) && ParseDecimal(Decimal(crc)) == crc
  {
    var line := ChecksumLine(crc, size, name);
    assert FirstDigitRunAt(line, Decimal(crc), 0) by {
      assert line == Decimal(crc) + ("\t" + Decimal(size) + "\t" + name);
    }
    ChecksumLineRoundTrip(crc, size, name, Decimal(crc));
  }
}
