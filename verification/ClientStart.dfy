/** How a session starts on the client: firstConnect, reconnect, createKey and the part of startClient
    before sendFile. */
module ClientStart {
  import opened Bytes
  import opened Connection
  import opened Names
  import opened Options
  import opened Text
  import opened Wire

  /** The contents of me.info, when there is one. */
  datatype Account = Account(name: seq<Byte>, uuid: string)

  /** The name in transfer.info, the account of an earlier registration, and a new public key. */
  datatype Start = Start(name: seq<Byte>, account: Option<Account>, publicKey: seq<Byte>)

  predicate ValidStart(c: Start) {
    && |c.name| <= NAME_FIELD && |c.publicKey| <= KEY_FIELD
    && (c.account.Some? ==> |c.account.value.name| <= NAME_FIELD)
  }

  /** The bytes sent, and unless the client exits or an exception ends it: its id as text, the
      encrypted AES key, and the rest of the stream. */
  datatype Started = Ended(output: seq<Byte>) | Connected(output: seq<Byte>, uuid: string, aes: seq<Byte>, rest: seq<Byte>)

  function NameRequest(id: seq<Byte>, code: Uint16, name: seq<Byte>): seq<Byte>
    requires |id| == UUID_SIZE && |name| <= NAME_FIELD
  {
    HeaderBytes(ClientHeader(id, code, NAME_FIELD)) + Field(name, NAME_FIELD)
  }

  function KeyMessage(id: seq<Byte>, name: seq<Byte>, key: seq<Byte>): seq<Byte>
    requires |id| == UUID_SIZE && |name| <= NAME_FIELD && |key| <= KEY_FIELD
  {
    HeaderBytes(ClientHeader(id, SEND_PUB_KEY, NAME_FIELD + KEY_FIELD)) + (Field(name, NAME_FIELD) + Field(key, KEY_FIELD))
  }

  /** The payload with the AES key, after its header. */
  function ReadAes(sent: seq<Byte>, uuid: string, body: seq<Byte>, size: nat): Started {
    if |body| < size || size < UUID_SIZE then Ended(sent)
    else Connected(sent, uuid, body[UUID_SIZE..size], body[size..])
  }

  /** createKey: the id from the server, printed and parsed back, goes out with the public key. What
      follows is the first answer in startClient, or after a fallback the second one. */
  function CreateKey(c: Start, sent: seq<Byte>, input: seq<Byte>, back: bool): Started
    requires ValidStart(c)
    decreases if back then 1 else 3
  {
    if |input| < UUID_SIZE then Ended(sent)
    else
      var id := input[..UUID_SIZE];
      var output := sent + KeyMessage(id, c.name, c.publicKey);
      AwaitAes(c, output, input[UUID_SIZE..], Hex(id), back)
  }

  function AwaitAes(c: Start, sent: seq<Byte>, input: seq<Byte>, uuid: string, back: bool): Started
    requires ValidStart(c)
    decreases if back then 0 else 2
  {
    if |input| < REPLY_SIZE then Ended(sent)
    else
      var reply, body := UnpackReply(input[..REPLY_SIZE]), input[REPLY_SIZE..];
      if reply.code == GENERIC_ERROR then Ended(sent)
      else if !back && reply.code == FAILED_REGISTRATION then Ended(sent)
      else if !back && reply.code == FAILED_RECONNECT then CreateKey(c, sent, body, true)
      else ReadAes(sent, uuid, body, reply.size)
  }

  /** startClient up to sendFile, as a function of the bytes that arrive. */
  function Begin(c: Start, input: seq<Byte>): Started
    requires ValidStart(c)
  {
    match c.account
    case None =>
      var sent := NameRequest(Zeros(UUID_SIZE), REGISTRATION_REQUEST, c.name);
      if |input| < REPLY_SIZE || UnpackReply(input[..REPLY_SIZE]).code == FAILED_REGISTRATION then Ended(sent)
      else CreateKey(c, sent, input[REPLY_SIZE..], false)
    case Some(a) =>
      match FromHex(a.uuid, UUID_SIZE)
      case None => Ended([])
      case Some(id) => AwaitAes(c, NameRequest(id, RECONNECT_REQUEST, a.name), input, a.uuid, false)
  }

  // ---------- The program ----------

  class ClientSession {
    const sock: Socket
    const c: Start

    constructor (sock: Socket, c: Start)
      ensures this.sock == sock && this.c == c
    {
      this.sock, this.c := sock, c;
    }

    method ReceiveReply() returns (reply: Option<Reply>)
      modifies sock`incoming
      ensures var input := old(sock.incoming);
              if |input| < REPLY_SIZE then reply == None
              else reply == Some(UnpackReply(input[..REPLY_SIZE])) && sock.incoming == input[REPLY_SIZE..]
    {
      var data := ReceiveData(sock, REPLY_SIZE);
      if data.None? { return None; }
      assert old(sock.incoming)[..REPLY_SIZE] == data.value;
      reply := Some(UnpackReply(data.value));
    }

    method SendNameRequest(idArray: array<Byte>, code: Uint16, name: seq<Byte>)
      requires idArray.Length == UUID_SIZE && |name| <= NAME_FIELD
      modifies sock`outgoing
      ensures sock.outgoing == old(sock.outgoing) + NameRequest(idArray[..], code, name)
    {
      var header := new SendHeader(idArray, code, NAME_FIELD);
      sock.SendAll(header.Packed());
      var nameToSend := FillField(name, NAME_FIELD);
      sock.SendAll(nameToSend[..]);
    }

    /** The part of createKey that sends: the id goes from bytes to text and back to bytes. */
    method SendKey(idArray: array<Byte>) returns (uuid: string)
      requires ValidStart(c) && idArray.Length == UUID_SIZE
      modifies sock`outgoing, idArray
      ensures uuid == Hex(old(idArray[..]))
      ensures sock.outgoing == old(sock.outgoing) + KeyMessage(old(idArray[..]), c.name, c.publicKey)
    {
      hide HeaderBytes, FromHex;
      ghost var id := idArray[..];
      uuid := PrintId(idArray);
      HexRoundTrip(id, uuid);
      var ok := FillId(uuid, idArray);
      var header := new SendHeader(idArray, SEND_PUB_KEY, NAME_FIELD + KEY_FIELD);
      sock.SendAll(header.Packed());
      var contents := new KeyPacket(c.name, c.publicKey);
      sock.SendAll(contents.Packed());
    }

    method ReceiveAes(uuid: string, size: nat) returns (aes: Option<seq<Byte>>)
      modifies sock`incoming
      ensures match ReadAes(sock.outgoing, uuid, old(sock.incoming), size)
              case Ended(_) => aes == None
              case Connected(_, _, a, rest) => aes == Some(a) && sock.incoming == rest
    {
      ghost var body := sock.incoming;
      var data := ReceiveData(sock, size);
      if data.None? || size < UUID_SIZE { return None; }
      assert body[..size] == data.value && body[UUID_SIZE..size] == data.value[UUID_SIZE..];
      aes := Some(data.value[UUID_SIZE..]);
    }

    /** createKey, with the id still to come. */
    method CreateKeyFromServer() returns (uuid: Option<string>)
      requires ValidStart(c)
      modifies sock
      ensures var input := old(sock.incoming);
              if |input| < UUID_SIZE then uuid == None && sock.outgoing == old(sock.outgoing)
              else
                && uuid == Some(Hex(input[..UUID_SIZE])) && sock.incoming == input[UUID_SIZE..]
                && sock.outgoing == old(sock.outgoing) + KeyMessage(input[..UUID_SIZE], c.name, c.publicKey)
    {
      ghost var input := sock.incoming;
      var id := ReceiveData(sock, UUID_SIZE);
      if id.None? { return None; }
      assert input[..UUID_SIZE] == id.value;
      var idArray := new Byte[UUID_SIZE](i requires 0 <= i < UUID_SIZE => id.value[i]);
      assert idArray[..] == id.value;
      var text := SendKey(idArray);
      uuid := Some(text);
    }

    /** startClient from the first header on. */
    method FinishStart(uuid: string) returns (r: Option<(string, seq<Byte>)>)
      requires ValidStart(c)
      modifies sock
      ensures var s := AwaitAes(c, old(sock.outgoing), old(sock.incoming), uuid, false);
              && sock.outgoing == s.output
              && (if s.Ended? then r == None else r == Some((s.uuid, s.aes)) && sock.incoming == s.rest)
    {
      hide KeyMessage, Hex, UnpackReply;
      var reply := ReceiveReply();
      if reply.None? || reply.value.code == FAILED_REGISTRATION || reply.value.code == GENERIC_ERROR { return None; }
      var id, size := uuid, reply.value.size;
      if reply.value.code == FAILED_RECONNECT {
        var key := CreateKeyFromServer();
        if key.None? { return None; }
        id := key.value;
        reply := ReceiveReply();
        if reply.None? || reply.value.code == GENERIC_ERROR { return None; }
        size := reply.value.size;
      }
      var aes := ReceiveAes(id, size);
      if aes.None? { return None; }
      r := Some((id, aes.value));
    }

    method StartClient() returns (r: Option<(string, seq<Byte>)>)
      requires ValidStart(c) && sock.outgoing == []
      modifies sock
      ensures var s := Begin(c, old(sock.incoming));
              && sock.outgoing == s.output
              && (if s.Ended? then r == None else r == Some((s.uuid, s.aes)) && sock.incoming == s.rest)
    {
      hide AwaitAes, KeyMessage, NameRequest, Hex, UnpackReply, FromHex;
      var idArray := new Byte[UUID_SIZE](_ => 0);
      if c.account.None? {
        assert idArray[..] == Zeros(UUID_SIZE);
        SendNameRequest(idArray, REGISTRATION_REQUEST, c.name);
        assert sock.outgoing == NameRequest(Zeros(UUID_SIZE), REGISTRATION_REQUEST, c.name);
        var reply := ReceiveReply();
        if reply.None? || reply.value.code == FAILED_REGISTRATION { return None; }
        var uuid := CreateKeyFromServer();
        if uuid.None? { return None; }
        r := FinishStart(uuid.value);
      } else {
        var a := c.account.value;
        var ok := FillId(a.uuid, idArray);
        if !ok { return None; }
        SendNameRequest(idArray, RECONNECT_REQUEST, a.name);
        assert sock.outgoing == NameRequest(idArray[..], RECONNECT_REQUEST, a.name);
        r := FinishStart(a.uuid);
      }
    }
  }
}
