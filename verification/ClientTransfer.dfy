/** The client's side of a file transfer: sending the packets up to four times and closing. */
module ClientTransfer {
  import opened Bytes
  import opened Connection
  import opened Names
  import opened Options
  import opened Packets
  import opened Wire

  /** What the client wants to send: its id, the ciphertext, the sizes and the number of packets it
      announces, the name of the file, and its own checksum. */
  datatype Upload = Upload(id: seq<Byte>, ct: seq<Byte>, before: Uint32, total: Uint16, name: seq<Byte>, crc: Uint32)

  ghost predicate Sendable(u: Upload) {
    |u.id| == UUID_SIZE && 0 < |u.ct| < 0x8000_0000 && |u.name| <= NAME_FIELD
  }

  function MetaOf(u: Upload): Meta
    requires |u.ct| < 0x8000_0000 && |u.name| <= NAME_FIELD
  {
    Meta(|u.ct|, u.before, u.total, Field(u.name, NAME_FIELD))
  }

  /** A packet behind its header. */
  function Framed(id: seq<Byte>, p: Packet): seq<Byte>
    requires |id| == UUID_SIZE && |p.path| == NAME_FIELD
  {
    HeaderBytes(ClientHeader(id, SEND_FILE, FIXED + C)) + PacketBytes(p)
  }

  function Frames(id: seq<Byte>, ps: seq<Packet>): seq<Byte>
    requires |id| == UUID_SIZE && forall p :: p in ps ==> |p.path| == NAME_FIELD
  {
    if |ps| == 0 then [] else Framed(id, ps[0]) + Frames(id, ps[1..])
  }

  lemma {:induction false} PathsOfPackets(ct: seq<Byte>, k: nat, m: Meta)
    requires |ct| < 0x8000_0000
    ensures forall p :: p in PacketsFrom(ct, k, m) ==> p.path == m.path && |p.message| == C
    decreases |ct| - k * C
  {
    hide Chunk;
    if k * C >= |ct| {
    } else {
      PathsOfPackets(ct, k + 1, m);
    }
  }

  /** The bytes of one transmission, from packet k on. */
  function Transmission(u: Upload, k: nat): seq<Byte>
    requires Sendable(u)
  {
    PathsOfPackets(u.ct, k, MetaOf(u));
    Frames(u.id, PacketsFrom(u.ct, k, MetaOf(u)))
  }

  lemma NextFrame(u: Upload, k: nat)
    requires Sendable(u)
    ensures Transmission(u, k) ==
            if k * C < |u.ct| then Framed(u.id, PacketAt(u.ct, k, MetaOf(u))) + Transmission(u, k + 1) else []
  {
    hide Framed, PacketAt;
    PathsOfPackets(u.ct, k, MetaOf(u));
    if k * C < |u.ct| {
      var ps := PacketsFrom(u.ct, k, MetaOf(u));
      assert ps[0] == PacketAt(u.ct, k, MetaOf(u)) && ps[1..] == PacketsFrom(u.ct, k + 1, MetaOf(u));
    }
  }

  /** The wrapping counter takes the loop through exactly the multiples of C below n. */
  lemma CounterWraps(k: nat, n: nat)
    requires k * C < n + C && n < 0x8000_0000
    ensures ToInt32(k * C) % SIZE_T < n <==> k * C < n
    ensures k * C < n ==> ToInt32(k * C) == k * C
  {
  }

  /** A message with the file name as its payload: codes 1029, 1030 and 1031. */
  function NameMessage(u: Upload, code: Uint16): seq<Byte>
    requires Sendable(u)
  {
    HeaderBytes(ClientHeader(u.id, code, NAME_FIELD)) + Field(u.name, NAME_FIELD)
  }

  /** How sending ends: with the counter it returns, or before that by an exit or an exception. */
  datatype Sent = Stopped(output: seq<Byte>) | Counted(counter: nat, output: seq<Byte>, rest: seq<Byte>)

  function Before(output: seq<Byte>, s: Sent): Sent {
    s.(output := output + s.output)
  }

  /** The checksum of the server in an answer, unless the answer is an error, does not fit into the
      structure the client reads it over, or breaks off. A shorter one leaves zeros in the structure. */
  function ReadAnswer(input: seq<Byte>): (r: Option<(Uint32, seq<Byte>)>)
    ensures r.Some? ==> |r.value.1| < |input|
  {
    if |input| < REPLY_SIZE then None
    else
      var reply, body := UnpackReply(input[..REPLY_SIZE]), input[REPLY_SIZE..];
      if reply.code == GENERIC_ERROR || reply.size > CRC_MESSAGE_SIZE || |body| < reply.size then None
      else Some((UnpackCrcMessage(Field(body[..reply.size], CRC_MESSAGE_SIZE)).cksum, body[reply.size..]))
  }

  /** sendThePackets as a function of the bytes the server sends. */
  function SendRounds(u: Upload, input: seq<Byte>, counter: nat): Sent
    requires Sendable(u)
    decreases |input|, if counter <= TIMES_TO_SEND then 1 else 0
  {
    if counter > TIMES_TO_SEND then Counted(counter, [], input)
    else
      match ReadAnswer(input)
      case None => Stopped(Transmission(u, 0))
      case Some((crc, rest)) =>
        if crc == u.crc then Counted(counter, Transmission(u, 0), rest)
        else Before(Transmission(u, 0) + Again(u, counter), SendRounds(u, rest, counter + 1))
  }

  /** Two runs that differ only in what they send. */
  predicate SameEnd(s: Sent, t: Sent) {
    s == t.(output := s.output)
  }

  /** One round of SendRounds, with the bytes sent before it. */
  lemma RoundStep(u: Upload, input: seq<Byte>, counter: nat, sent: seq<Byte>)
    requires Sendable(u)
    ensures var s := SendRounds(u, input, counter);
            if counter > TIMES_TO_SEND then s == Counted(counter, [], input)
            else
              match ReadAnswer(input)
              case None => s == Stopped(Transmission(u, 0))
              case Some((crc, rest)) =>
                if crc == u.crc then s == Counted(counter, Transmission(u, 0), rest)
                else
                  var next := SendRounds(u, rest, counter + 1);
                  && SameEnd(s, next)
                  && sent + s.output == sent + Transmission(u, 0) + Again(u, counter) + next.output
  {
    hide Transmission, NameMessage, ReadAnswer, Again;
  }

  /** A request to send again is made in all rounds but the last. */
  function Again(u: Upload, counter: nat): seq<Byte>
    requires Sendable(u)
  {
    if counter < TIMES_TO_SEND then NameMessage(u, RESEND) else []
  }

  /** What is left after the answer to the closing message, unless that is an error or missing. Of its
      payload no more is read than fits into the array for an id. */
  function ReadAccept(input: seq<Byte>): Option<seq<Byte>> {
    if |input| < REPLY_SIZE then None
    else
      var reply, body := UnpackReply(input[..REPLY_SIZE]), input[REPLY_SIZE..];
      var size := if reply.size < UUID_SIZE then reply.size else UUID_SIZE;
      if reply.code == GENERIC_ERROR || |body| < size then None else Some(body[size..])
  }

  // ---------- How often the client sends ----------

  /** The checksum in the i-th answer of the server. */
  function Answer(input: seq<Byte>, i: nat): Option<Uint32>
    decreases i
  {
    match ReadAnswer(input)
    case None => None
    case Some((crc, rest)) => if i == 0 then Some(crc) else Answer(rest, i - 1)
  }

  /** m transmissions with a request to send again between each two; after the fourth there is none. */
  function Rounds(u: Upload, m: nat): seq<Byte>
    requires Sendable(u)
  {
    if m == 0 then [] else if m == 1 then Transmission(u, 0)
    else Transmission(u, 0) + NameMessage(u, RESEND) + Rounds(u, m - 1)
  }

  /** The counter sendThePackets returns says how many rounds there were and how they went: it is k
      up to 4 exactly when answer k is the first with the client's checksum, and 5 when none is. */
  lemma {:induction false} RetryFrom(u: Upload, input: seq<Byte>, counter: nat)
    requires Sendable(u) && 1 <= counter <= TIMES_TO_SEND
    ensures var s := SendRounds(u, input, counter);
            s.Counted? ==>
              var m := (if s.counter <= TIMES_TO_SEND then s.counter else TIMES_TO_SEND) - counter + 1;
              && 1 <= m && counter <= s.counter <= TIMES_TO_SEND + 1
              && s.output == Rounds(u, m)
              && (forall i :: 0 <= i < m ==> Answer(input, i).Some?)
              && (forall i :: 0 <= i < m - 1 ==> Answer(input, i) != Some(u.crc))
              && (s.counter <= TIMES_TO_SEND <==> Answer(input, m - 1) == Some(u.crc))
    decreases TIMES_TO_SEND - counter
  {
    hide ReadAnswer, Transmission, NameMessage;
    var s := SendRounds(u, input, counter);
    if s.Counted? {
      var (crc, rest) := ReadAnswer(input).value;
      if crc != u.crc && counter < TIMES_TO_SEND {
        RetryFrom(u, rest, counter + 1);
        var next := SendRounds(u, rest, counter + 1);
        var m := (if s.counter <= TIMES_TO_SEND then s.counter else TIMES_TO_SEND) - counter;
        assert forall i :: 1 <= i <= m ==> Answer(input, i) == Answer(rest, i - 1);
      } else if crc != u.crc {
        assert SendRounds(u, rest, counter + 1) == Counted(counter + 1, [], rest);
        assert Transmission(u, 0) + [] + [] == Transmission(u, 0);
      }
    }
  }

  // ---------- The program ----------

  method ReceiveAnswer(sock: Socket) returns (crc: Option<Uint32>)
    modifies sock`incoming
    ensures match ReadAnswer(old(sock.incoming))
            case None => crc == None
            case Some((c, rest)) => crc == Some(c) && sock.incoming == rest
  {
    ghost var input := sock.incoming;
    var header := ReceiveData(sock, REPLY_SIZE);
    if header.None? { return None; }
    assert input[..REPLY_SIZE] == header.value;
    ghost var body := sock.incoming;
    assert body == input[REPLY_SIZE..];
    var reply := UnpackReply(header.value);
    if reply.code == GENERIC_ERROR || reply.size > CRC_MESSAGE_SIZE { return None; }
    var message := ReceiveData(sock, reply.size);
    if message.None? { return None; }
    assert body[..reply.size] == message.value;
    crc := Some(UnpackCrcMessage(Field(message.value, CRC_MESSAGE_SIZE)).cksum);
  }

  class Sender {
    const sock: Socket
    const u: Upload

    constructor (sock: Socket, u: Upload)
      ensures this.sock == sock && this.u == u
    {
      this.sock := sock;
      this.u := u;
    }

    method SendingHeader(code: Uint16, size: Uint32)
      requires Sendable(u)
      modifies sock`outgoing
      ensures sock.outgoing == old(sock.outgoing) + HeaderBytes(ClientHeader(u.id, code, size))
    {
      var id := new Byte[UUID_SIZE](i requires 0 <= i < UUID_SIZE => u.id[i]);
      assert id[..] == u.id;
      var header := new SendHeader(id, code, size);
      sock.SendAll(header.Packed());
    }

    /** The for loop of sendThePackets. The counter i is an int: it wraps, and is compared as a size_t. */
    method SendChunks()
      requires Sendable(u)
      modifies sock`outgoing
      ensures sock.outgoing == old(sock.outgoing) + Transmission(u, 0)
    {
      hide Framed, Transmission, ToInt32;
      var currentPacket, i: int := 1, 0;
      ghost var k: nat := 0;
      ghost var all := sock.outgoing + Transmission(u, 0);
      CounterWraps(0, |u.ct|);
      while i % SIZE_T < |u.ct|
        invariant currentPacket == k + 1 && k * C < |u.ct| + C && i == ToInt32(k * C)
        invariant all == sock.outgoing + Transmission(u, k)
        decreases |u.ct| + C - k * C
      {
        CounterWraps(k, |u.ct|);
        NextFrame(u, k);
        SendChunk(i, currentPacket, k);
        currentPacket := currentPacket + 1;
        i := ToInt32(i + C);
        k := k + 1;
      }
      CounterWraps(k, |u.ct|);
      NextFrame(u, k);
    }

    method SendChunk(i: nat, currentPacket: nat, ghost k: nat)
      requires Sendable(u) && i == k * C < |u.ct| && currentPacket == k + 1
      modifies sock`outgoing
      ensures sock.outgoing == old(sock.outgoing) + Framed(u.id, PacketAt(u.ct, k, MetaOf(u)))
    {
      hide HeaderBytes, PacketBytes;
      var chunk := if i + C <= |u.ct| then u.ct[i..i + C] else u.ct[i..];
      var packet := new FilePacket(|u.ct|, u.before, currentPacket, u.total, u.name, chunk);
      SendingHeader(SEND_FILE, FIXED + C);
      sock.SendAll(packet.Packed());
    }

    method SendName(code: Uint16)
      requires Sendable(u)
      modifies sock`outgoing
      ensures sock.outgoing == old(sock.outgoing) + NameMessage(u, code)
    {
      SendingHeader(code, NAME_FIELD);
      var path := FillField(u.name, NAME_FIELD);
      sock.SendAll(path[..]);
    }

    method SendThePackets() returns (counter: Option<nat>)
      requires Sendable(u)
      modifies sock
      ensures var s := SendRounds(u, old(sock.incoming), 1);
              && sock.outgoing == old(sock.outgoing) + s.output
              && counter == (if s.Stopped? then None else Some(s.counter))
              && (s.Counted? ==> sock.incoming == s.rest)
    {
      hide Transmission, NameMessage, ReadAnswer, SendRounds;
      ghost var s := SendRounds(u, sock.incoming, 1);
      ghost var output := sock.outgoing + s.output;
      var tries := 1;
      while tries <= TIMES_TO_SEND
        invariant tries <= TIMES_TO_SEND + 1
        invariant output == sock.outgoing + SendRounds(u, sock.incoming, tries).output
        invariant SameEnd(s, SendRounds(u, sock.incoming, tries))
        decreases TIMES_TO_SEND - tries
      {
        RoundStep(u, sock.incoming, tries, sock.outgoing);
        SendChunks();
        var crc := ReceiveAnswer(sock);
        if crc.None? { return None; }
        if crc.value == u.crc { return Some(tries); }
        if tries < TIMES_TO_SEND { SendName(RESEND); }
        tries := tries + 1;
      }
      RoundStep(u, sock.incoming, tries, sock.outgoing);
      counter := Some(tries);
    }

    /** Closes with the code for success or failure, and waits for the server to accept that. The
        result is None when the server answers with an error or not at all. */
    method Finish(counter: nat) returns (success: Option<bool>)
      requires Sendable(u)
      modifies sock
      ensures sock.outgoing == old(sock.outgoing) + NameMessage(u, ClosingCode(counter))
      ensures match ReadAccept(old(sock.incoming))
              case None => success == None
              case Some(rest) => success == Some(counter <= TIMES_TO_SEND) && sock.incoming == rest
    {
      hide NameMessage;
      if counter <= TIMES_TO_SEND { SendName(CORRECT_CRC); } else { SendName(FAILED_AND_FINISH); }
      ghost var input := sock.incoming;
      var header := ReceiveData(sock, REPLY_SIZE);
      if header.None? { return None; }
      assert input[..REPLY_SIZE] == header.value;
      assert sock.incoming == input[REPLY_SIZE..];
      var reply := UnpackReply(header.value);
      if reply.code == GENERIC_ERROR { return None; }
      var id := ReceiveData(sock, if reply.size < UUID_SIZE then reply.size else UUID_SIZE);
      if id.None? { return None; }
      success := Some(counter <= TIMES_TO_SEND);
    }
  }
}
