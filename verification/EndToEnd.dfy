/** The two sides of a file transfer put together, on the bytes that travel between them. */
module EndToEnd {
  import opened Bytes
  import opened Cipher
  import opened Cksum
  import opened ClientTransfer
  import opened Connection
  import opened Gf2
  import opened Names
  import opened Options
  import opened Packets
  import opened Registry
  import opened ServerTransfer
  import opened Text
  import opened Wire

  // ---------- Reading what was sent ----------

  lemma TakeFramed(h: Header, payload: seq<Byte>, tail: seq<Byte>)
    requires |h.id| == UUID_SIZE && |payload| == h.size
    ensures TakeMessage(HeaderBytes(h) + payload + tail) == Some(Message(h, payload, tail))
  {
    hide HeaderBytes, UnpackHeader;
    var input := HeaderBytes(h) + payload + tail;
    HeaderRoundTrip(h);
    assert input[..HEADER_SIZE] == HeaderBytes(h) && input[HEADER_SIZE..] == payload + tail;
    assert (payload + tail)[..h.size] == payload && (payload + tail)[h.size..] == tail;
  }

  lemma TakePacket(id: seq<Byte>, p: Packet, tail: seq<Byte>)
    requires |id| == UUID_SIZE && |p.path| == NAME_FIELD && |p.message| == C
    ensures TakeMessage(Framed(id, p) + tail) == Some(Message(ClientHeader(id, SEND_FILE, FIXED + C), PacketBytes(p), tail))
    ensures UnpackPacket(PacketBytes(p)) == Some(p)
  {
    hide HeaderBytes, PacketBytes, UnpackPacket, TakeMessage;
    TakeFramed(ClientHeader(id, SEND_FILE, FIXED + C), PacketBytes(p), tail);
    PacketRoundTrip(p);
  }

  /** The server reads from the bytes what Assemble puts together from the packets. */
  lemma {:induction false} ReadFrames(id: seq<Byte>, ps: seq<Packet>, tail: seq<Byte>, whole: seq<Byte>, path: seq<Byte>)
    requires |id| == UUID_SIZE && |path| == NAME_FIELD
    requires forall p :: p in ps ==> p.path == path && |p.message| == C
    requires Assemble(ps, whole).Some?
    ensures var (w, rest) := Assemble(ps, whole).value;
            && (forall p :: p in rest ==> p.path == path)
            && ReadFile(Frames(id, ps) + tail, whole) == Received(id, UntilNul(path), w, Frames(id, rest) + tail)
    decreases |ps|
  {
    hide Framed, PacketBytes, UnpackPacket, TakeMessage, LastPart, UntilNul;
    var next := Frames(id, ps[1..]) + tail;
    assert Frames(id, ps) + tail == Framed(id, ps[0]) + next;
    TakePacket(id, ps[0], next);
    if ps[0].current == ps[0].total {
    } else {
      ReadFrames(id, ps[1..], tail, whole + ps[0].message, path);
    }
  }

  /** A transmission with the right total arrives whole, and nothing of it is left in the stream. */
  lemma ReadTransmission(u: Upload, tail: seq<Byte>)
    requires Sendable(u) && u.total == PacketCount(|u.ct|)
    ensures ReadFile(Transmission(u, 0) + tail, []) == Received(u.id, UntilNul(Field(u.name, NAME_FIELD)), u.ct, tail)
  {
    var m := MetaOf(u);
    ReassemblyIff(u.ct, m);
    PathsOfPackets(u.ct, 0, m);
    ReadFrames(u.id, PacketsFrom(u.ct, 0, m), tail, [], m.path);
    assert Frames(u.id, []) + tail == tail;
  }

  /** With too small a total the server stops early, with a length no decryption accepts. */
  lemma ReadShortTransmission(u: Upload, tail: seq<Byte>)
    requires Sendable(u) && |u.ct| % 16 == 0
    requires 1 <= u.total < PacketCount(|u.ct|) <= u.total + 15
    ensures var r := ReadFile(Transmission(u, 0) + tail, []);
            r.Received? && |r.whole| == |u.ct| - (PacketCount(|u.ct|) - u.total) * C && |r.whole| % BLOCK != 0
  {
    var m := MetaOf(u);
    ShortTotal(u.ct, m, PacketCount(|u.ct|) - u.total);
    PathsOfPackets(u.ct, 0, m);
    ReadFrames(u.id, PacketsFrom(u.ct, 0, m), tail, [], m.path);
  }

  lemma TakeName(u: Upload, code: Uint16, tail: seq<Byte>)
    requires Sendable(u)
    ensures TakeMessage(NameMessage(u, code) + tail) ==
            Some(Message(ClientHeader(u.id, code, NAME_FIELD), Field(u.name, NAME_FIELD), tail))
  {
    hide HeaderBytes, TakeMessage;
    TakeFramed(ClientHeader(u.id, code, NAME_FIELD), Field(u.name, NAME_FIELD), tail);
  }

  lemma ReadCrcAnswer(id: seq<Byte>, size: Uint32, path: seq<Byte>, crc: Uint32, tail: seq<Byte>)
    requires |id| == UUID_SIZE && |path| <= NAME_FIELD
    ensures ReadAnswer(CrcAnswer(id, size, path, crc) + tail) == Some((crc, tail))
  {
    hide ReplyBytes, UnpackReply, CrcMessageBytes, UnpackCrcMessage;
    var reply, m := Reply(3, SEND_CRC, CRC_MESSAGE_SIZE), CrcMessage(id, size, Field(path, NAME_FIELD), crc);
    var input := CrcAnswer(id, size, path, crc) + tail;
    ReplyRoundTrip(reply);
    CrcMessageRoundTrip(m);
    assert input[..REPLY_SIZE] == ReplyBytes(reply) && input[REPLY_SIZE..] == CrcMessageBytes(m) + tail;
    var body := input[REPLY_SIZE..];
    assert body[..CRC_MESSAGE_SIZE] == Field(body[..CRC_MESSAGE_SIZE], CRC_MESSAGE_SIZE) == CrcMessageBytes(m);
    assert body[CRC_MESSAGE_SIZE..] == tail;
  }

  // ---------- What the answers of the server say ----------

  /** A header of the server at the front of what it sends. */
  predicate Heads(output: seq<Byte>, code: Uint16, size: Uint32) {
    |output| >= REPLY_SIZE && UnpackReply(output[..REPLY_SIZE]) == Reply(3, code, size)
  }

  const ANSWER: nat := REPLY_SIZE + CRC_MESSAGE_SIZE

  /** The answer to a transmission at the front of what the server sends: 1603, then whose file it was,
      how long the ciphertext was, what the file is called, and its checksum. */
  predicate AnswerSays(output: seq<Byte>, id: seq<Byte>, size: nat, path: seq<Byte>, crc: nat) {
    && |output| >= ANSWER && Heads(output, SEND_CRC, 279)
    && var m := UnpackCrcMessage(output[REPLY_SIZE..ANSWER]);
       m.id == id && m.size == size && UntilNul(m.fileName) == path && m.cksum == crc
  }

  /** The answer to a closing message, which is the last one: 1604 with the id of the client, and an
      error if the database has failed. */
  predicate AcceptSays(output: seq<Byte>, uuid: seq<Byte>, database: bool) {
    && Heads(output, ACCEPT_MESSAGE, 16) && |output| == (if database then 23 else 30) && output[7..23] == uuid
    && (!database ==> Heads(output[23..], GENERIC_ERROR, 0))
  }

  lemma ReplyHeads(code: Uint16, size: Uint32, tail: seq<Byte>)
    ensures Heads(ReplyBytes(Reply(3, code, size)) + tail, code, size)
  {
    hide ReplyBytes, UnpackReply;
    ReplyRoundTrip(Reply(3, code, size));
    assert (ReplyBytes(Reply(3, code, size)) + tail)[..REPLY_SIZE] == ReplyBytes(Reply(3, code, size));
  }

  lemma CrcAnswerSays(id: seq<Byte>, size: Uint32, path: seq<Byte>, crc: Uint32, tail: seq<Byte>)
    requires |id| == UUID_SIZE && |path| < NAME_FIELD && 0 !in path
    ensures var a := CrcAnswer(id, size, path, crc) + tail; AnswerSays(a, id, size, path, crc) && a[ANSWER..] == tail
  {
    hide ReplyBytes, UnpackReply, CrcMessageBytes, UnpackCrcMessage, UntilNul;
    var m := CrcMessage(id, size, Field(path, NAME_FIELD), crc);
    var a := CrcAnswer(id, size, path, crc) + tail;
    ReplyHeads(SEND_CRC, CRC_MESSAGE_SIZE, CrcMessageBytes(m) + tail);
    assert a == ReplyBytes(Reply(3, SEND_CRC, CRC_MESSAGE_SIZE)) + (CrcMessageBytes(m) + tail);
    assert a[REPLY_SIZE..ANSWER] == CrcMessageBytes(m) && a[ANSWER..] == tail;
    CrcMessageRoundTrip(m);
    FieldRoundTripIff(path, NAME_FIELD);
  }

  lemma AcceptAnswerSays(env: Env)
    requires |env.uuid| == UUID_SIZE
    ensures AcceptSays(AcceptAnswer(env), env.uuid, env.database)
  {
    hide ReplyBytes, UnpackReply;
    var reply := ReplyBytes(Reply(3, ACCEPT_MESSAGE, UUID_SIZE));
    var error := if env.database then [] else ReplyBytes(Reply(3, GENERIC_ERROR, 0));
    var a := AcceptAnswer(env);
    assert a == reply + (env.uuid + error) && a[7..23] == env.uuid && a[23..] == error;
    ReplyHeads(ACCEPT_MESSAGE, UUID_SIZE, env.uuid + error);
    ReplyHeads(GENERIC_ERROR, 0, []);
    assert ReplyBytes(Reply(3, GENERIC_ERROR, 0)) + [] == ReplyBytes(Reply(3, GENERIC_ERROR, 0));
  }

  /** What the server takes for a file name always fits into its field with a NUL to end it. */
  lemma {:induction false} ReadPathFits(input: seq<Byte>, whole: seq<Byte>)
    ensures var r := ReadFile(input, whole); r.Received? ==> |r.path| < NAME_FIELD && 0 !in r.path
    decreases |input|
  {
    hide TakeMessage, UnpackPacket, UntilNul, LastPart;
    var m := TakeMessage(input);
    if m.None? {
    } else {
      var p := UnpackPacket(m.value.payload);
      if p.None? {
      } else if p.value.current == p.value.total {
        UntilNulFits(p.value.path);
      } else {
        ReadPathFits(m.value.rest, whole + p.value.message);
      }
    }
  }

  lemma UntilNulFits(field: seq<Byte>)
    requires |field| > 0
    ensures |UntilNul(field)| < |field| && 0 !in UntilNul(field)
  {
  }

  /** One round of any session, on the bytes: the answer names the client's own id, the length of what was
      put together, the name and the checksum of what was stored; after it comes the acceptance of a
      closing message, or the next round. */
  lemma RoundIsAnswered(env: Env, input: seq<Byte>, round: nat)
    requires |env.uuid| == UUID_SIZE && env.writable(round)
    ensures var r, s := ReadFile(input, []), Serve(env, input, round);
            r.Received? && |r.whole| < UINT32_SIZE && Decrypt(env.dec, r.whole).Some? ==>
              var text := Decrypt(env.dec, r.whole).value;
              && AnswerSays(s.output, r.id, |r.whole|, r.path, PosixCrc(text))
              && var more := s.output[ANSWER..];
                 match TakeMessage(r.rest)
                 case None => more == [] && s == Served(s.output, [text], [], Raised)
                 case Some(m) =>
                   if m.header.code == 1029 || m.header.code == 1031 then
                     && AcceptSays(more, env.uuid, env.database)
                     && s == Served(s.output, [text], [Update(r.path, m.header.code == 1029)], Finished(m.rest))
                   else
                     var next := Serve(env, m.rest, round + 1);
                     more == next.output && s == Served(s.output, [text] + next.stored, next.updates, next.ending)
  {
    hide ReadFile, TakeMessage, CrcAnswer, AcceptAnswer, PosixCrc, Decrypt, AnswerSays, AcceptSays;
    var r := ReadFile(input, []);
    if r.Received? && |r.whole| < UINT32_SIZE && Decrypt(env.dec, r.whole).Some? {
      var text := Decrypt(env.dec, r.whole).value;
      ReadPathFits(input, []);
      AcceptAnswerSays(env);
      CrcAnswerSays(r.id, |r.whole|, r.path, PosixCrc(text), ServeAnswer(env, r.rest, r.path, round).output);
    }
  }

  /** The other rounds: a stream that breaks off or does not decrypt is answered with nothing, a file that
      cannot be written with an error, and a message of 4 GiB with a header alone. None is recorded. */
  lemma RoundEndsSession(env: Env, input: seq<Byte>, round: nat)
    requires var r := ReadFile(input, []);
             r.Broken? || Decrypt(env.dec, r.whole).None? || !env.writable(round) || |r.whole| >= UINT32_SIZE
    ensures var r, s := ReadFile(input, []), Serve(env, input, round);
            && s.ending == Raised && s.updates == []
            && if r.Broken? || Decrypt(env.dec, r.whole).None? then s.output == [] && s.stored == []
               else
                 && |s.output| == REPLY_SIZE
                 && if !env.writable(round) then Heads(s.output, GENERIC_ERROR, 0) && s.stored == []
                    else Heads(s.output, SEND_CRC, 279) && s.stored == [Decrypt(env.dec, r.whole).value]
  {
    hide ReadFile, Decrypt, ReplyBytes, UnpackReply;
    ReplyHeads(GENERIC_ERROR, 0, []);
    ReplyHeads(SEND_CRC, 279, []);
    assert ReplyBytes(Reply(3, GENERIC_ERROR, 0)) + [] == ReplyBytes(Reply(3, GENERIC_ERROR, 0));
    assert ReplyBytes(Reply(3, SEND_CRC, 279)) + [] == ReplyBytes(Reply(3, SEND_CRC, 279));
  }

  // ---------- What the packets of the client say ----------

  /** What follows i messages. */
  function Dropped(input: seq<Byte>, i: nat): Option<seq<Byte>>
    decreases i
  {
    if i == 0 then Some(input)
    else
      match TakeMessage(input)
      case None => None
      case Some(m) => Dropped(m.rest, i - 1)
  }

  /** Packet k, counted from 0, at the front of what the client sends: 1028, the sizes after and before
      encryption, which packet of how many it is, the name, and its part of the ciphertext with zeros after it. */
  ghost predicate PacketSays(input: seq<Byte>, u: Upload, k: nat) {
    var m := TakeMessage(input);
    && m.Some? && m.value.header == Header(u.id, 3, 1028, 65536)
    && var p := UnpackPacket(m.value.payload);
       && p.Some? && p.value.after == |u.ct| && p.value.before == u.before
       && p.value.current == k + 1 && p.value.total == u.total
       && (|u.name| < NAME_FIELD && 0 !in u.name ==> UntilNul(p.value.path) == u.name)
       && |p.value.message| == C
       && forall i :: 0 <= i < C ==> p.value.message[i] == if k * C + i < |u.ct| then u.ct[k * C + i] else 0
  }

  lemma {:induction false} DroppedTransmission(u: Upload, i: nat, k: nat, tail: seq<Byte>)
    requires Sendable(u) && i + k <= PacketCount(|u.ct|)
    ensures Dropped(Transmission(u, i) + tail, k) == Some(Transmission(u, i + k) + tail)
    decreases k
  {
    hide Transmission, TakeMessage, PacketBytes, Framed, PacketAt;
    if k == 0 {
    } else {
      NextFrame(u, i);
      assert i * C < |u.ct|;
      var p := PacketAt(u.ct, i, MetaOf(u));
      PacketPath(u, i);
      TakePacket(u.id, p, Transmission(u, i + 1) + tail);
      assert Transmission(u, i) + tail == Framed(u.id, p) + (Transmission(u, i + 1) + tail);
      DroppedTransmission(u, i + 1, k - 1, tail);
    }
  }

  /** A message of the client that names the file. */
  predicate NameSays(input: seq<Byte>, u: Upload, code: Uint16, tail: seq<Byte>) {
    var m := TakeMessage(input);
    && m.Some? && m.value.header == Header(u.id, 3, code, 255) && m.value.rest == tail
    && (|u.name| < NAME_FIELD && 0 !in u.name ==> UntilNul(m.value.payload) == u.name)
  }

  lemma NameMessageSays(u: Upload, code: Uint16, tail: seq<Byte>)
    requires Sendable(u)
    ensures NameSays(NameMessage(u, code) + tail, u, code, tail)
  {
    hide TakeMessage, NameMessage, UntilNul;
    TakeName(u, code, tail);
    FieldRoundTripIff(u.name, NAME_FIELD);
  }

  /** After the packets of a round that is not the last comes 1030 with the name, and then the next round. */
  lemma RoundsSay(u: Upload, m: nat, tail: seq<Byte>)
    requires Sendable(u) && m > 0
    ensures var rest := Dropped(Rounds(u, m) + tail, PacketCount(|u.ct|));
            rest.Some? && if m == 1 then rest.value == tail else NameSays(rest.value, u, 1030, Rounds(u, m - 1) + tail)
  {
    hide Transmission, NameMessage, Dropped, NameSays, PacketCount;
    if m == 1 {
      DroppedTransmission(u, 0, PacketCount(|u.ct|), tail);
      NothingLeft(u);
      assert [] + tail == tail;
    } else {
      var next := NameMessage(u, RESEND) + (Rounds(u, m - 1) + tail);
      DroppedTransmission(u, 0, PacketCount(|u.ct|), next);
      NothingLeft(u);
      assert [] + next == next;
      assert Rounds(u, m) + tail == Transmission(u, 0) + next;
      NameMessageSays(u, RESEND, Rounds(u, m - 1) + tail);
    }
  }

  lemma NothingLeft(u: Upload)
    requires Sendable(u)
    ensures Transmission(u, PacketCount(|u.ct|)) == []
  {
    hide Transmission;
    NextFrame(u, PacketCount(|u.ct|));
  }

  lemma PacketPath(u: Upload, k: nat)
    requires Sendable(u) && k * C < |u.ct|
    ensures PacketAt(u.ct, k, MetaOf(u)).path == Field(u.name, NAME_FIELD)
  {
  }

  /** Each packet of a transmission says what it should; there are as many as the ciphertext needs. */
  lemma EveryPacketSays(u: Upload, k: nat, tail: seq<Byte>)
    requires Sendable(u) && k < PacketCount(|u.ct|)
    ensures var t := Dropped(Transmission(u, 0) + tail, k); t.Some? && PacketSays(t.value, u, k)
    ensures Dropped(Transmission(u, 0) + tail, PacketCount(|u.ct|)) == Some(tail)
  {
    hide Transmission, Framed, Dropped, PacketSays, PacketAt, MetaOf;
    assert k * C < |u.ct|;
    hide PacketCount;
    DroppedTransmission(u, 0, k, tail);
    DroppedTransmission(u, 0, PacketCount(|u.ct|), tail);
    NothingLeft(u);
    assert [] + tail == tail;
    NextFrame(u, k);
    var rest := Transmission(u, k + 1);
    FramedSays(u, k, rest + tail);
    assert Transmission(u, k) + tail == Framed(u.id, PacketAt(u.ct, k, MetaOf(u))) + (rest + tail);
  }

  lemma FramedSays(u: Upload, k: nat, tail: seq<Byte>)
    requires Sendable(u) && k * C < |u.ct|
    ensures PacketAt(u.ct, k, MetaOf(u)).path == Field(u.name, NAME_FIELD)
    ensures PacketSays(Framed(u.id, PacketAt(u.ct, k, MetaOf(u))) + tail, u, k)
  {
    hide TakeMessage, PacketBytes, UnpackPacket, Framed, UntilNul;
    var p := PacketAt(u.ct, k, MetaOf(u));
    TakePacket(u.id, p, tail);
    FieldRoundTripIff(u.name, NAME_FIELD);
    ChunkBytes(u.ct, k);
  }

  lemma ChunkBytes(ct: seq<Byte>, k: nat)
    requires k * C < |ct|
    ensures forall i :: 0 <= i < C ==> Field(Chunk(ct, k), C)[i] == if k * C + i < |ct| then ct[k * C + i] else 0
  {
  }

  // ---------- Whole runs over a channel that may damage the packets ----------

  /** What the server makes of one transmission: the bytes that arrive, and what they stand for. */
  datatype Delivery = Delivery(bytes: seq<Byte>, id: seq<Byte>, path: seq<Byte>, whole: seq<Byte>, text: seq<Byte>)

  /** The transmission can be read and decrypted, whatever follows it. */
  ghost predicate Arrives(env: Env, d: Delivery) {
    && |d.id| == UUID_SIZE && |d.path| <= NAME_FIELD && |d.whole| < UINT32_SIZE
    && Decrypt(env.dec, d.whole) == Some(d.text)
    && forall tail {:trigger ReadFile(d.bytes + tail, [])} ::
         ReadFile(d.bytes + tail, []) == Received(d.id, d.path, d.whole, tail)
  }

  predicate Matches(u: Upload, d: Delivery) {
    PosixCrc(d.text) == u.crc
  }

  function Texts(ds: seq<Delivery>): (ts: seq<seq<Byte>>)
    ensures |ts| == |ds| && forall i :: 0 <= i < |ds| ==> ts[i] == ds[i].text
  {
    seq(|ds|, i requires 0 <= i < |ds| => ds[i].text)
  }

  /** Everything that reaches the server: a request to send again after every delivery but the last,
      and the closing message after that one. */
  function Conversation(u: Upload, ds: seq<Delivery>): seq<Byte>
    requires Sendable(u) && |ds| > 0
  {
    if |ds| == 1 then ds[0].bytes + NameMessage(u, if Matches(u, ds[0]) then CORRECT_CRC else FAILED_AND_FINISH)
    else ds[0].bytes + (NameMessage(u, RESEND) + Conversation(u, ds[1..]))
  }

  /** Both sides of a run agree. If the deliveries are those of a run (all but the last wrong, and
      the last either right or the fourth), then on what the client sends the server answers, and on
      those answers the client sends it: as many rounds, the same end, one database update. */
  lemma {:induction false} WholeRun(env: Env, u: Upload, ds: seq<Delivery>, counter: nat, round: nat)
    requires Sendable(u) && |env.uuid| == UUID_SIZE
    requires forall i: nat :: env.writable(i)
    requires 1 <= |ds| && 1 <= counter && counter + |ds| <= TIMES_TO_SEND + 1
    requires forall d :: d in ds ==> Arrives(env, d)
    requires forall i :: 0 <= i < |ds| - 1 ==> !Matches(u, ds[i])
    requires Matches(u, ds[|ds| - 1]) || counter + |ds| == TIMES_TO_SEND + 1
    ensures var success := Matches(u, ds[|ds| - 1]);
            var s := Serve(env, Conversation(u, ds), round);
            && s.ending == Finished([]) && s.stored == Texts(ds) && s.updates == [Update(ds[|ds| - 1].path, success)]
            && SendRounds(u, s.output, counter) ==
               Counted(if success then counter + |ds| - 1 else TIMES_TO_SEND + 1, Rounds(u, |ds|), AcceptAnswer(env))
    decreases |ds|
  {
    hide Serve, SendRounds, Conversation, Rounds, Matches, AcceptAnswer;
    if |ds| == 1 {
      OneRound(env, u, ds, counter, round);
    } else {
      WholeRun(env, u, ds[1..], counter + 1, round + 1);
      OneMoreRound(env, u, ds, counter, round);
    }
  }

  lemma OneRound(env: Env, u: Upload, ds: seq<Delivery>, counter: nat, round: nat)
    requires Sendable(u) && |ds| == 1 && Arrives(env, ds[0]) && env.writable(round)
    requires 1 <= counter <= TIMES_TO_SEND && (Matches(u, ds[0]) || counter == TIMES_TO_SEND)
    ensures var success := Matches(u, ds[0]);
            var s := Serve(env, Conversation(u, ds), round);
            && s.ending == Finished([]) && s.stored == Texts(ds) && s.updates == [Update(ds[0].path, success)]
            && SendRounds(u, s.output, counter) ==
               Counted(if success then counter else TIMES_TO_SEND + 1, Rounds(u, 1), AcceptAnswer(env))
  {
    hide ReadFile, TakeMessage, ReadAnswer, CrcAnswer, AcceptAnswer, NameMessage, Transmission, PosixCrc, Decrypt, Serve;
    var d, tail := ds[0], AcceptAnswer(env);
    LastRound(env, u, d, if Matches(u, d) then CORRECT_CRC else FAILED_AND_FINISH, round);
    ReadCrcAnswer(d.id, |d.whole|, d.path, PosixCrc(d.text), tail);
    if !Matches(u, d) {
      assert SendRounds(u, tail, counter + 1) == Counted(counter + 1, [], tail);
      assert Transmission(u, 0) + [] + [] == Transmission(u, 0);
    }
    assert Texts(ds) == [d.text];
  }

  lemma OneMoreRound(env: Env, u: Upload, ds: seq<Delivery>, counter: nat, round: nat)
    requires Sendable(u) && |ds| > 1 && Arrives(env, ds[0]) && env.writable(round)
    requires 1 <= counter < TIMES_TO_SEND && !Matches(u, ds[0])
    ensures var s, next := Serve(env, Conversation(u, ds), round), Serve(env, Conversation(u, ds[1..]), round + 1);
            && s.ending == next.ending && s.updates == next.updates
            && (next.stored == Texts(ds[1..]) ==> s.stored == Texts(ds))
            && forall c: nat, tail :: SendRounds(u, next.output, counter + 1) == Counted(c, Rounds(u, |ds| - 1), tail) ==>
                 SendRounds(u, s.output, counter) == Counted(c, Rounds(u, |ds|), tail)
  {
    hide ReadFile, TakeMessage, ReadAnswer, CrcAnswer, AcceptAnswer, NameMessage, Transmission, PosixCrc, Decrypt, Serve;
    var d, rest := ds[0], Conversation(u, ds[1..]);
    RepeatedRound(env, u, d, rest, round);
    ReadCrcAnswer(d.id, |d.whole|, d.path, PosixCrc(d.text), Serve(env, rest, round + 1).output);
    assert Texts(ds) == [d.text] + Texts(ds[1..]);
  }

  lemma LastRound(env: Env, u: Upload, d: Delivery, code: Uint16, round: nat)
    requires Sendable(u) && Arrives(env, d) && env.writable(round) && Closing(code)
    ensures Serve(env, d.bytes + NameMessage(u, code), round) ==
            Served(CrcAnswer(d.id, |d.whole|, d.path, PosixCrc(d.text)) + AcceptAnswer(env), [d.text],
                   [Update(d.path, code == CORRECT_CRC)], Finished([]))
  {
    hide ReadFile, TakeMessage, CrcAnswer, AcceptAnswer, NameMessage, PosixCrc, Decrypt;
    TakeName(u, code, []);
    assert NameMessage(u, code) + [] == NameMessage(u, code);
  }

  lemma RepeatedRound(env: Env, u: Upload, d: Delivery, input: seq<Byte>, round: nat)
    requires Sendable(u) && Arrives(env, d) && env.writable(round)
    ensures Serve(env, d.bytes + (NameMessage(u, RESEND) + input), round) ==
            After(CrcAnswer(d.id, |d.whole|, d.path, PosixCrc(d.text)), [d.text], Serve(env, input, round + 1))
  {
    hide ReadFile, TakeMessage, CrcAnswer, AcceptAnswer, NameMessage, PosixCrc, Decrypt;
    TakeName(u, RESEND, input);
  }

  /** A file stored in this round: the decryption of something, when the file could be written. */
  ghost predicate StoredIn(env: Env, text: seq<Byte>, round: nat) {
    env.writable(round) && exists whole :: Decrypt(env.dec, whole) == Some(text)
  }

  ghost predicate AllStored(env: Env, stored: seq<seq<Byte>>, round: nat) {
    forall i :: 0 <= i < |stored| ==> StoredIn(env, stored[i], round + i)
  }

  lemma NoneStored(env: Env, round: nat)
    ensures AllStored(env, [], round) && AllStored(env, [], round + 1)
  {
  }

  lemma OneMoreStored(env: Env, whole: seq<Byte>, text: seq<Byte>, stored: seq<seq<Byte>>, round: nat)
    requires Decrypt(env.dec, whole) == Some(text) && env.writable(round) && AllStored(env, stored, round + 1)
    ensures AllStored(env, [text] + stored, round)
  {
    var all := [text] + stored;
    forall i | 0 <= i < |all| ensures StoredIn(env, all[i], round + i) {
      if i > 0 { assert StoredIn(env, stored[i - 1], (round + 1) + (i - 1)); }
    }
  }

  /** What every session of get_file keeps, whatever arrives. */
  ghost predicate WellServed(env: Env, s: Served, round: nat) {
    && |s.updates| == (if s.ending.Finished? then 1 else 0)
    && AllStored(env, s.stored, round)
  }

  /** Whatever arrives: a session that finishes has stored a file and recorded one transfer; one that
      does not finish has recorded none. What is stored always comes from a decryption, in a round
      whose file could be written. */
  lemma {:induction false} ServeAlways(env: Env, input: seq<Byte>, round: nat)
    ensures var s := Serve(env, input, round);
            WellServed(env, s, round) && (s.ending.Finished? ==> |s.stored| > 0)
    decreases |input|, 1
  {
    hide Decrypt, CrcAnswer, AcceptAnswer, TakeMessage, ReadFile, AllStored, ServeAnswer, ReplyBytes;
    NoneStored(env, round);
    var r := ReadFile(input, []);
    if r.Received? {
      var text := Decrypt(env.dec, r.whole);
      if text.Some? && env.writable(round) {
        var next := ServeAnswer(env, r.rest, r.path, round);
        AnswerAlways(env, r.rest, r.path, round);
        OneMoreStored(env, r.whole, text.value, [], round);
        OneMoreStored(env, r.whole, text.value, next.stored, round);
        assert [text.value] + [] == [text.value];
      }
    }
  }

  lemma {:induction false} AnswerAlways(env: Env, input: seq<Byte>, path: seq<Byte>, round: nat)
    ensures WellServed(env, ServeAnswer(env, input, path, round), round + 1)
    decreases |input|, 0
  {
    hide Decrypt, AcceptAnswer, TakeMessage, Serve, AllStored;
    NoneStored(env, round);
    var m := TakeMessage(input);
    if m.Some? && !Closing(m.value.header.code) { ServeAlways(env, m.value.rest, round + 1); }
  }

  /** A file that cannot be written ends the session on both sides: the server reports an error, and
      the client stops after its transmission, whatever else it might find in the stream. */
  lemma WriteErrorStopsBoth(env: Env, u: Upload, d: Delivery, tail: seq<Byte>, tail': seq<Byte>, counter: nat, round: nat)
    requires Sendable(u) && Arrives(env, d) && !env.writable(round) && 1 <= counter <= TIMES_TO_SEND
    ensures var s := Serve(env, d.bytes + tail, round);
            && s.stored == [] && s.updates == [] && s.ending == Raised
            && Heads(s.output, GENERIC_ERROR, 0) && |s.output| == REPLY_SIZE
            && SendRounds(u, s.output + tail', counter) == Stopped(Transmission(u, 0))
  {
    hide ReadFile, Transmission, Decrypt, ReplyBytes, UnpackReply;
    var reply := ReplyBytes(Reply(3, GENERIC_ERROR, 0));
    ReplyHeads(GENERIC_ERROR, 0, []);
    ReplyHeads(GENERIC_ERROR, 0, tail');
    assert reply + [] == reply;
  }

  /** An error in place of the last answer ends sendFile as well. */
  lemma ErrorEndsFinish(size: Uint32, tail: seq<Byte>)
    ensures ReadAccept(ReplyBytes(Reply(3, GENERIC_ERROR, size)) + tail) == None
  {
    hide ReplyBytes, UnpackReply;
    ReplyHeads(GENERIC_ERROR, size, tail);
  }

  // ---------- sendFile ----------

  /** What sendFile hands to sendThePackets, or None when one of its guards returns. */
  function MakeUpload(enc: seq<Byte> -> seq<Byte>, text: seq<Byte>, filePath: seq<Byte>, id: seq<Byte>): Option<Upload>
    requires |filePath| < NPOS
  {
    var ct := Encrypt(enc, text);
    match Announce(|ct|)
    case None => None
    case Some((after, total)) =>
      Some(Upload(id, ct, |text| % UINT32_SIZE, total, BaseName(filePath), PosixCrc(text)))
  }

  /** The bytes sendFile sends, and unless an exception or an exit ends it before, whether it returns
      normally or exits as failed, and what it leaves in the stream. */
  function SendFileRun(u: Upload, input: seq<Byte>): (seq<Byte>, Option<(bool, seq<Byte>)>)
    requires Sendable(u)
  {
    match SendRounds(u, input, 1)
    case Stopped(output) => (output, None)
    case Counted(counter, output, rest) =>
      (output + NameMessage(u, ClosingCode(counter)),
       match ReadAccept(rest)
       case None => None
       case Some(tail) => Some((counter <= TIMES_TO_SEND, tail)))
  }

  /** What sendFile is given: if the guards let the file pass, the int counters reach its end. */
  ghost predicate Given(enc: seq<Byte> -> seq<Byte>, text: seq<Byte>, filePath: seq<Byte>, id: seq<Byte>) {
    var n := |Encrypt(enc, text)|;
    && |filePath| < NPOS && |BaseName(filePath)| < NAME_FIELD && |id| == UUID_SIZE
    && 0 < n && (Announce(n).Some? ==> n < 0x8000_0000 && |text| < 0x8000_0000)
  }

  ghost predicate Transferable(enc: seq<Byte> -> seq<Byte>, text: seq<Byte>, filePath: seq<Byte>, id: seq<Byte>) {
    && |filePath| < NPOS && |BaseName(filePath)| < NAME_FIELD
    && |id| == UUID_SIZE && 0 < |Encrypt(enc, text)| < 0x8000_0000
  }

  /** The line of readfile. Beyond what an int counts the program is not defined, and the line is
      taken to be any string. */
  method ReadFileLine(text: array<Byte>, shownName: string, ulong: nat) returns (line: string)
    requires ulong == TWO32 || ulong == TWO64
    ensures text.Length < 0x8000_0000 ==> line == ChecksumLine(PosixCrc(text[..]), text.Length, shownName)
  {
    if text.Length < 0x8000_0000 {
      var crc := MemcrcCpp(text, ulong);
      line := ChecksumLine(crc, text.Length, shownName);
    } else {
      line := *;
    }
  }

  /** The checksum compared with the server's is the number printed in the line of readfile. A file
      that a guard refuses is never sent. */
  method SendFile(sock: Socket, enc: seq<Byte> -> seq<Byte>, text: array<Byte>, filePath: seq<Byte>, shownName: string, id: seq<Byte>, ulong: nat)
    returns (success: Option<bool>)
    requires Given(enc, text[..], filePath, id)
    requires ulong == TWO32 || ulong == TWO64
    modifies sock
    ensures var u := MakeUpload(enc, text[..], filePath, id);
            if u.None? then success == None && sock.outgoing == old(sock.outgoing) && sock.incoming == old(sock.incoming)
            else
              && Sendable(u.value)
              && var (output, result) := SendFileRun(u.value, old(sock.incoming));
                 && sock.outgoing == old(sock.outgoing) + output
                 && match result
                    case None => success == None
                    case Some((verified, rest)) => success == Some(verified) && sock.incoming == rest
  {
    hide PosixCrc, Encrypt, SendRounds, ReadAccept, NameMessage, Announce, ChecksumLine, Decimal;
    var checksum := ReadFileLine(text, shownName, ulong);
    var ct := Encrypt(enc, text[..]);
    var announced := Announce(|ct|);
    if announced.None? { return None; }
    var checksumNumbers := GetNumbers(checksum);
    ChecksumLineRoundTrip(PosixCrc(text[..]), text.Length, shownName, checksumNumbers);
    var u := Upload(id, ct, text.Length % UINT32_SIZE, announced.value.1, BaseName(filePath), ParseDecimal(checksumNumbers));
    assert MakeUpload(enc, text[..], filePath, id) == Some(u);
    var sender := new Sender(sock, u);
    var counter := sender.SendThePackets();
    if counter.None? { return None; }
    success := sender.Finish(counter.value);
  }

  /** Which files the guards refuse: those of more than 65535 packets, as far as the counts do not wrap. */
  lemma RefusedIff(enc: seq<Byte> -> seq<Byte>, text: seq<Byte>, filePath: seq<Byte>, id: seq<Byte>)
    requires |filePath| < NPOS && 0 < |Encrypt(enc, text)| < 0x8000_0000 * (C + 1)
    ensures MakeUpload(enc, text, filePath, id).None? <==> |Encrypt(enc, text)| > 65535 * C
  {
    hide Announce, Encrypt, PosixCrc, BaseName;
    GuardsIff(|Encrypt(enc, text)|);
  }

  // ---------- The transfer of a file ----------

  lemma UploadIsSendable(enc: seq<Byte> -> seq<Byte>, dec: seq<Byte> -> seq<Byte>, text: seq<Byte>, filePath: seq<Byte>, id: seq<Byte>)
    requires Transferable(enc, text, filePath, id) && IsBlockMode(enc, dec)
    ensures var u := MakeUpload(enc, text, filePath, id);
            && u.Some? && Sendable(u.value) && |u.value.ct| % 16 == 0
            && u.value.total == AnnouncedTotal(|u.value.ct|) && u.value.crc == PosixCrc(text)
            && Decrypt(dec, u.value.ct) == Some(text) && Given(enc, text, filePath, id)
  {
    hide PosixCrc, Decrypt, Encrypt, BaseName, Announce, PacketCount;
    DecryptUndoesEncrypt(enc, dec, text);
    GuardsIff(|Encrypt(enc, text)|);
  }

  /** When the last packet is full enough, one round transfers the file: the server stores exactly
      its bytes and records it as verified, and the client sends one transmission and returns. */
  lemma FileArrives(env: Env, enc: seq<Byte> -> seq<Byte>, text: seq<Byte>, filePath: seq<Byte>, id: seq<Byte>)
    requires Transferable(enc, text, filePath, id) && IsBlockMode(enc, env.dec)
    requires 0 !in BaseName(filePath) && |env.uuid| == UUID_SIZE
    requires env.database && forall i: nat :: env.writable(i)
    requires var n := |Encrypt(enc, text)|; LastSize(n) >= PacketCount(n) - 1
    ensures var u := MakeUpload(enc, text, filePath, id);
            && u.Some? && Sendable(u.value)
            && var sent := Transmission(u.value, 0) + NameMessage(u.value, CORRECT_CRC);
               var s := Serve(env, sent, 0);
            && s.stored == [text] && s.updates == [Update(BaseName(filePath), true)] && s.ending == Finished([])
            && SendFileRun(u.value, s.output) == (sent, Some((true, [])))
            && AnswerSays(s.output, id, |u.value.ct|, BaseName(filePath), PosixCrc(text))
            && AcceptSays(s.output[ANSWER..], env.uuid, true)
  {
    hide AnswerSays, AcceptSays, UntilNul, TakeMessage;
    hide Transmission, NameMessage, ReadFile, Serve, SendRounds, PosixCrc, Encrypt, Decrypt, AcceptAnswer, ReadAccept;
    UploadIsSendable(enc, env.dec, text, filePath, id);
    var u := MakeUpload(enc, text, filePath, id).value;
    AnnouncedTotalIff(|u.ct|);
    FieldRoundTripIff(u.name, NAME_FIELD);
    var d := Delivery(Transmission(u, 0), u.id, u.name, u.ct, text);
    forall tail ensures ReadFile(d.bytes + tail, []) == Received(d.id, d.path, d.whole, tail) {
      ReadTransmission(u, tail);
    }
    WholeRun(env, u, [d], 1, 0);
    assert Conversation(u, [d]) == d.bytes + NameMessage(u, CORRECT_CRC);
    AcceptIsRead(env);
    RoundIsAnswered(env, Transmission(u, 0) + NameMessage(u, CORRECT_CRC), 0);
    TakeName(u, CORRECT_CRC, []);
    assert NameMessage(u, CORRECT_CRC) + [] == NameMessage(u, CORRECT_CRC);
  }

  /** And this is what it sends: as many packets as the ciphertext needs, each with both sizes, the base
      name and its part of the ciphertext, and then nothing but the closing message. */
  lemma FileIsSentAsPackets(enc: seq<Byte> -> seq<Byte>, dec: seq<Byte> -> seq<Byte>, text: seq<Byte>, filePath: seq<Byte>, id: seq<Byte>, k: nat)
    requires Transferable(enc, text, filePath, id) && IsBlockMode(enc, dec)
    requires k < PacketCount(|Encrypt(enc, text)|)
    ensures var u := MakeUpload(enc, text, filePath, id);
            && u.Some? && Sendable(u.value) && u.value.id == id && u.value.ct == Encrypt(enc, text) && u.value.before == |text|
            && u.value.name == BaseName(filePath) && u.value.crc == PosixCrc(text)
            && var sent := Transmission(u.value, 0) + NameMessage(u.value, CORRECT_CRC);
            && Dropped(sent, PacketCount(|u.value.ct|)) == Some(NameMessage(u.value, CORRECT_CRC))
            && Dropped(sent, k).Some? && PacketSays(Dropped(sent, k).value, u.value, k)
  {
    hide Transmission, NameMessage, PosixCrc, Encrypt, Decrypt, BaseName, Announce, PacketSays, Dropped, PacketCount;
    UploadIsSendable(enc, dec, text, filePath, id);
    var u := MakeUpload(enc, text, filePath, id).value;
    EveryPacketSays(u, k, NameMessage(u, CORRECT_CRC));
  }

  lemma AcceptIsRead(env: Env)
    requires |env.uuid| == UUID_SIZE
    ensures ReadAccept(AcceptAnswer(env)) == Some(if env.database then [] else ReplyBytes(Reply(3, GENERIC_ERROR, 0)))
  {
    hide ReplyBytes, UnpackReply;
    var reply, b := Reply(3, ACCEPT_MESSAGE, UUID_SIZE), AcceptAnswer(env);
    ReplyRoundTrip(reply);
    assert b[..REPLY_SIZE] == ReplyBytes(reply);
    assert b[REPLY_SIZE..][UUID_SIZE..] == if env.database then [] else ReplyBytes(Reply(3, GENERIC_ERROR, 0));
  }

  /** Otherwise the announced total is too small, and the server neither stores, records nor answers
      anything, whatever the client goes on to send. */
  lemma ShortFileIsNeverStored(env: Env, enc: seq<Byte> -> seq<Byte>, text: seq<Byte>, filePath: seq<Byte>, id: seq<Byte>, tail: seq<Byte>)
    requires Transferable(enc, text, filePath, id) && IsBlockMode(enc, env.dec)
    requires var n := |Encrypt(enc, text)|; LastSize(n) < PacketCount(n) - 1
    ensures var u := MakeUpload(enc, text, filePath, id);
            && u.Some? && Sendable(u.value)
            && Serve(env, Transmission(u.value, 0) + tail, 0) == Served([], [], [], Raised)
  {
    hide Transmission, ReadFile, PosixCrc, Encrypt, AcceptAnswer, CrcAnswer;
    UploadIsSendable(enc, env.dec, text, filePath, id);
    var u := MakeUpload(enc, text, filePath, id).value;
    AnnouncedTotalIff(|u.ct|);
    Shortfall(|u.ct|);
    ReadShortTransmission(u, tail);
  }

  /** The deliveries of a run: all but the last differ, and the last is right or the fourth. */
  ghost predicate DeliveriesOfRun(env: Env, u: Upload, ds: seq<Delivery>) {
    && 1 <= |ds| <= TIMES_TO_SEND && (forall d :: d in ds ==> Arrives(env, d))
    && (forall i :: 0 <= i < |ds| - 1 ==> !Matches(u, ds[i]))
    && (Matches(u, ds[|ds| - 1]) || |ds| == TIMES_TO_SEND)
  }

  /** What reaches the server in the first rounds of a run, when others follow. */
  function SentAgain(u: Upload, ds: seq<Delivery>): seq<Byte>
    requires Sendable(u)
  {
    if |ds| == 0 then [] else ds[0].bytes + NameMessage(u, RESEND) + SentAgain(u, ds[1..])
  }

  lemma {:induction false} SplitConversation(u: Upload, ds: seq<Delivery>, i: nat)
    requires Sendable(u) && i < |ds|
    ensures Conversation(u, ds) == SentAgain(u, ds[..i]) + Conversation(u, ds[i..])
  {
    hide NameMessage, Matches;
    if i == 0 {
      assert ds[..0] == [] && ds[0..] == ds;
    } else {
      SplitConversation(u, ds[1..], i - 1);
      assert ds[..i][1..] == ds[1..][..i - 1] && ds[1..][i - 1..] == ds[i..];
    }
  }

  lemma {:induction false} SplitRounds(u: Upload, m: nat, n: nat)
    requires Sendable(u) && m > 0 && n > 0
    ensures Rounds(u, m + n) == Rounds(u, m) + NameMessage(u, RESEND) + Rounds(u, n)
    decreases m
  {
    hide Transmission, NameMessage;
    if m == 1 {
    } else {
      SplitRounds(u, m - 1, n);
    }
  }

  /** A whole run of sendFile against get_file, whatever happens to the packets on the way. */
  lemma SendFileAgrees(env: Env, u: Upload, ds: seq<Delivery>)
    requires Sendable(u) && |env.uuid| == UUID_SIZE
    requires (forall j: nat :: env.writable(j)) && DeliveriesOfRun(env, u, ds)
    ensures var last := ds[|ds| - 1];
            var s, success := Serve(env, Conversation(u, ds), 0), Matches(u, last);
            var (sent, end) := SendFileRun(u, s.output);
            && s.stored == Texts(ds) && s.updates == [Update(last.path, success)] && s.ending == Finished([])
            && sent == Rounds(u, |ds|) + NameMessage(u, if success then CORRECT_CRC else FAILED_AND_FINISH)
            && end.Some? && end.value.0 == success && (env.database ==> end.value.1 == [])
  {
    hide Serve, SendRounds, Conversation, Rounds, NameMessage, AcceptAnswer, ReadAccept, Matches, Arrives;
    WholeRun(env, u, ds, 1, 0);
    AcceptIsRead(env);
  }

  /** A round whose stored file has up to 32 neighbouring bits wrong is never acknowledged. If it is not
      the last of its run, what the client sends next, and what reaches the server next, is the
      request to send again; if it is the last, then it is the fourth, the client closes the run as
      failed, and the server records the file as not verified. */
  lemma DamageIsNeverAcknowledged(env: Env, u: Upload, text: seq<Byte>, ds: seq<Delivery>, i: nat, k: nat)
    requires Sendable(u) && u.crc == PosixCrc(text) && |env.uuid| == UUID_SIZE
    requires (forall j: nat :: env.writable(j)) && DeliveriesOfRun(env, u, ds)
    requires i < |ds| && ds[i].text != text && DifferOnlyWithin(text, ds[i].text, k, 32)
    ensures var s, last := Serve(env, Conversation(u, ds), 0), |ds| - 1;
            var (sent, end) := SendFileRun(u, s.output);
            if i < last then
              && Conversation(u, ds) == SentAgain(u, ds[..i]) + (ds[i].bytes + (NameMessage(u, RESEND) + Conversation(u, ds[i + 1..])))
              && Rounds(u, i + 1) + NameMessage(u, RESEND) <= sent
            else
              && |ds| == TIMES_TO_SEND && s.updates == [Update(ds[last].path, false)]
              && sent == Rounds(u, TIMES_TO_SEND) + NameMessage(u, FAILED_AND_FINISH) && end.Some? && !end.value.0
  {
    hide PosixCrc, Serve, SendFileRun, Rounds, NameMessage, DifferOnlyWithin, Conversation, Arrives;
    BurstDetected(text, ds[i].text, k);
    SendFileAgrees(env, u, ds);
    if i < |ds| - 1 {
      SplitConversation(u, ds, i);
      NextConversation(u, ds[i..]);
      assert ds[i..][1..] == ds[i + 1..];
      SplitRounds(u, i + 1, |ds| - 1 - i);
    }
  }

  lemma NextConversation(u: Upload, ds: seq<Delivery>)
    requires Sendable(u) && |ds| > 1
    ensures Conversation(u, ds) == ds[0].bytes + (NameMessage(u, RESEND) + Conversation(u, ds[1..]))
  {
    hide NameMessage, Matches;
  }
}
