/** The messages as bytes: the packed structures of the client and what struct.unpack makes of them. */
module Wire {
  import opened Bytes
  import opened Names
  import opened Options
  import opened Packets

  const KEY_FIELD: nat := 160
  const HEADER_SIZE: nat := 23
  const REPLY_SIZE: nat := 7
  const CRC_MESSAGE_SIZE: nat := 279

  const REGISTRATION_REQUEST: Uint16 := 1025
  const SEND_PUB_KEY: Uint16 := 1026
  const RECONNECT_REQUEST: Uint16 := 1027
  const SEND_FILE: Uint16 := 1028
  const CORRECT_CRC: Uint16 := 1029
  const RESEND: Uint16 := 1030
  const FAILED_AND_FINISH: Uint16 := 1031
  const SUCCESSFUL_REGISTRATION: Uint16 := 1600
  const FAILED_REGISTRATION: Uint16 := 1601
  const SEND_AES: Uint16 := 1602
  const SEND_CRC: Uint16 := 1603
  const ACCEPT_MESSAGE: Uint16 := 1604
  const SUCCESSFUL_RECONNECT: Uint16 := 1605
  const FAILED_RECONNECT: Uint16 := 1606
  const GENERIC_ERROR: Uint16 := 1607

  const TIMES_TO_SEND: nat := 4

  /** The code the client closes with after counter rounds; one more than four means that none went well. */
  function ClosingCode(counter: nat): Uint16 {
    if counter <= TIMES_TO_SEND then CORRECT_CRC else FAILED_AND_FINISH
  }

  /** The header of a client message: '<16sBHI'. */
  datatype Header = Header(id: seq<Byte>, version: Byte, code: Uint16, size: Uint32)

  /** The header of a server message: '<BHI'. */
  datatype Reply = Reply(version: Byte, code: Uint16, size: Uint32)

  /** The answer of the server to a transmission. */
  datatype CrcMessage = CrcMessage(id: seq<Byte>, size: Uint32, fileName: seq<Byte>, cksum: Uint32)

  function ClientHeader(id: seq<Byte>, code: Uint16, size: Uint32): Header {
    Header(id, 3, code, size)
  }

  function HeaderBytes(h: Header): (b: seq<Byte>)
    requires |h.id| == UUID_SIZE
    ensures |b| == HEADER_SIZE
  {
    h.id + [h.version] + Le16(h.code) + Le32(h.size)
  }

  function UnpackHeader(b: seq<Byte>): (h: Header)
    requires |b| == HEADER_SIZE
    ensures |h.id| == UUID_SIZE
  {
    Header(b[..16], b[16], FromLe16(b[17..19]), FromLe32(b[19..]))
  }

  function ReplyBytes(r: Reply): (b: seq<Byte>)
    ensures |b| == REPLY_SIZE
  {
    [r.version] + Le16(r.code) + Le32(r.size)
  }

  function UnpackReply(b: seq<Byte>): Reply
    requires |b| == REPLY_SIZE
  {
    Reply(b[0], FromLe16(b[1..3]), FromLe32(b[3..]))
  }

  function PacketBytes(p: Packet): (b: seq<Byte>)
    requires |p.path| == NAME_FIELD
    ensures |b| == FIXED + |p.message|
  {
    Le32(p.after) + Le32(p.before) + Le16(p.current) + Le16(p.total) + p.path + p.message
  }

  /** struct.unpack with '<IIHH255s' and the rest of the payload; a shorter payload is a struct.error. */
  function UnpackPacket(b: seq<Byte>): (p: Option<Packet>)
    ensures p.Some? ==> |p.value.path| == NAME_FIELD && |p.value.message| == |b| - FIXED
  {
    if |b| < FIXED then None
    else Some(Packet(FromLe32(b[..4]), FromLe32(b[4..8]), FromLe16(b[8..10]), FromLe16(b[10..12]), b[12..267], b[267..]))
  }

  function CrcMessageBytes(m: CrcMessage): (b: seq<Byte>)
    requires |m.id| == UUID_SIZE && |m.fileName| == NAME_FIELD
    ensures |b| == CRC_MESSAGE_SIZE
  {
    m.id + Le32(m.size) + m.fileName + Le32(m.cksum)
  }

  function UnpackCrcMessage(b: seq<Byte>): CrcMessage
    requires |b| == CRC_MESSAGE_SIZE
  {
    CrcMessage(b[..16], FromLe32(b[16..20]), b[20..275], FromLe32(b[275..]))
  }

  // ---------- Round trips ----------

  lemma HeaderRoundTrip(h: Header)
    requires |h.id| == UUID_SIZE
    ensures UnpackHeader(HeaderBytes(h)) == h
  {
    var b := HeaderBytes(h);
    assert b[..16] == h.id && b[17..19] == Le16(h.code) && b[19..] == Le32(h.size);
    Le16RoundTrip(h.code);
    Le32RoundTrip(h.size);
  }

  lemma ReplyRoundTrip(r: Reply)
    ensures UnpackReply(ReplyBytes(r)) == r
  {
    var b := ReplyBytes(r);
    assert b[1..3] == Le16(r.code) && b[3..] == Le32(r.size);
    Le16RoundTrip(r.code);
    Le32RoundTrip(r.size);
  }

  lemma PacketRoundTrip(p: Packet)
    requires |p.path| == NAME_FIELD
    ensures UnpackPacket(PacketBytes(p)) == Some(p)
  {
    var b := PacketBytes(p);
    assert b[..4] == Le32(p.after) && b[4..8] == Le32(p.before);
    assert b[8..10] == Le16(p.current) && b[10..12] == Le16(p.total);
    assert b[12..267] == p.path && b[267..] == p.message;
    Le32RoundTrip(p.after);
    Le32RoundTrip(p.before);
    Le16RoundTrip(p.current);
    Le16RoundTrip(p.total);
  }

  lemma CrcMessageRoundTrip(m: CrcMessage)
    requires |m.id| == UUID_SIZE && |m.fileName| == NAME_FIELD
    ensures UnpackCrcMessage(CrcMessageBytes(m)) == m
  {
    var b := CrcMessageBytes(m);
    assert b[..16] == m.id && b[16..20] == Le32(m.size) && b[20..275] == m.fileName && b[275..] == Le32(m.cksum);
    Le32RoundTrip(m.size);
    Le32RoundTrip(m.cksum);
  }

  // ---------- Where each field is ----------

  /** The number that bytes stand for, the least significant first. */
  function LittleEndian(b: seq<Byte>): int {
    if |b| == 0 then 0 else b[0] as int + 0x100 * LittleEndian(b[1..])
  }

  lemma Le16IsLittleEndian(x: Uint16)
    ensures LittleEndian(Le16(x)) == x
  {
    var b := Le16(x);
    assert LittleEndian(b[1..]) == b[1] as int + 0x100 * LittleEndian(b[1..][1..]);
  }

  lemma Le32IsLittleEndian(x: Uint32)
    ensures LittleEndian(Le32(x)) == x
  {
    var low, high := Le16(x % 0x1_0000), Le16(x / 0x1_0000);
    var b := low + high;
    Le16IsLittleEndian(x / 0x1_0000);
    assert b[1..][1..] == high;
    assert LittleEndian(b[1..]) == b[1] as int + 0x100 * LittleEndian(high);
  }

  /** The packed header of a client message, byte by byte. */
  lemma HeaderLayout(id: seq<Byte>, code: Uint16, size: Uint32)
    requires |id| == UUID_SIZE
    ensures var b := HeaderBytes(ClientHeader(id, code, size));
            && b[..16] == id && b[16] == 3 && LittleEndian(b[17..19]) == code && LittleEndian(b[19..23]) == size
  {
    hide LittleEndian;
    var b := HeaderBytes(ClientHeader(id, code, size));
    assert b[17..19] == Le16(code) && b[19..23] == Le32(size);
    Le16IsLittleEndian(code);
    Le32IsLittleEndian(size);
  }

  lemma ReplyLayout(r: Reply)
    ensures var b := ReplyBytes(r); b[0] == r.version && LittleEndian(b[1..3]) == r.code && LittleEndian(b[3..7]) == r.size
  {
    hide LittleEndian;
    var b := ReplyBytes(r);
    assert b[1..3] == Le16(r.code) && b[3..7] == Le32(r.size);
    Le16IsLittleEndian(r.code);
    Le32IsLittleEndian(r.size);
  }

  /** A file packet: the size after encryption, the one before, the number of the packet, how many there
      are, the name, and the rest for the ciphertext. */
  lemma PacketLayout(p: Packet)
    requires |p.path| == NAME_FIELD
    ensures var b := PacketBytes(p);
            && LittleEndian(b[..4]) == p.after && LittleEndian(b[4..8]) == p.before
            && LittleEndian(b[8..10]) == p.current && LittleEndian(b[10..12]) == p.total
            && b[12..267] == p.path && b[267..] == p.message
  {
    hide LittleEndian;
    var b := PacketBytes(p);
    assert b[..4] == Le32(p.after) && b[4..8] == Le32(p.before) && b[8..10] == Le16(p.current) && b[10..12] == Le16(p.total);
    Le32IsLittleEndian(p.after);
    Le32IsLittleEndian(p.before);
    Le16IsLittleEndian(p.current);
    Le16IsLittleEndian(p.total);
  }

  /** The answer to a transmission: the id, the size of the ciphertext, the name, the checksum. */
  lemma CrcMessageLayout(m: CrcMessage)
    requires |m.id| == UUID_SIZE && |m.fileName| == NAME_FIELD
    ensures var b := CrcMessageBytes(m);
            b[..16] == m.id && LittleEndian(b[16..20]) == m.size && b[20..275] == m.fileName && LittleEndian(b[275..279]) == m.cksum
  {
    hide LittleEndian;
    var b := CrcMessageBytes(m);
    assert b[16..20] == Le32(m.size) && b[275..279] == Le32(m.cksum);
    Le32IsLittleEndian(m.size);
    Le32IsLittleEndian(m.cksum);
  }

  // ---------- The structures the client fills element by element ----------

  /** Copies b to the front of a zero-filled array. */
  method FillField(b: seq<Byte>, size: nat) returns (field: array<Byte>)
    requires |b| <= size
    ensures fresh(field) && field[..] == Field(b, size)
  {
    field := new Byte[size](_ => 0);
    for i := 0 to |b|
      invariant field[..i] == b[..i]
      invariant forall j :: i <= j < size ==> field[j] == 0
    {
      field[i] := b[i];
    }
  }

  class SendHeader {
    const idArray: array<Byte>
    const version: Byte
    const code: Uint16
    const payloadSize: Uint32

    ghost predicate Valid()
      reads this
    {
      idArray.Length == UUID_SIZE
    }

    /** The bytes of the packed structure in memory. */
    function Packed(): seq<Byte>
      requires Valid()
      reads this, idArray
    {
      HeaderBytes(Header(idArray[..], version, code, payloadSize))
    }

    constructor (id: array<Byte>, code: Uint16, size: Uint32)
      requires id.Length == UUID_SIZE
      ensures Valid() && fresh(idArray)
      ensures Packed() == HeaderBytes(ClientHeader(id[..], code, size))
    {
      var copy := new Byte[UUID_SIZE](_ => 0);
      for i := 0 to UUID_SIZE
        invariant copy[..i] == id[..i]
      {
        copy[i] := id[i];
      }
      idArray := copy;
      version := 3;
      this.code := code;
      payloadSize := size;
      new;
      assert idArray[..] == copy[..UUID_SIZE] == id[..UUID_SIZE] == id[..];
    }
  }

  class FilePacket {
    const afterSize: Uint32
    const beforeSize: Uint32
    const current: Uint16
    const total: Uint16
    const path: array<Byte>
    const message: array<Byte>

    ghost predicate Valid()
      reads this
    {
      path.Length == NAME_FIELD && message.Length == C
    }

    function Packed(): seq<Byte>
      requires Valid()
      reads this, path, message
    {
      PacketBytes(Packet(afterSize, beforeSize, current, total, path[..], message[..]))
    }

    constructor (afterSize: Uint32, beforeSize: Uint32, current: Uint16, total: Uint16, path: seq<Byte>, message: seq<Byte>)
      requires |path| <= NAME_FIELD && |message| <= C
      ensures Valid() && fresh(this.path) && fresh(this.message)
      ensures Packed() == PacketBytes(Packet(afterSize, beforeSize, current, total, Field(path, NAME_FIELD), Field(message, C)))
    {
      this.afterSize := afterSize;
      this.beforeSize := beforeSize;
      this.current := current;
      this.total := total;
      var p := FillField(path, NAME_FIELD);
      var m := FillField(message, C);
      this.path := p;
      this.message := m;
    }
  }

  class KeyPacket {
    const name: array<Byte>
    const key: array<Byte>

    ghost predicate Valid()
      reads this
    {
      name.Length == NAME_FIELD && key.Length == KEY_FIELD
    }

    function Packed(): seq<Byte>
      requires Valid()
      reads this, name, key
    {
      name[..] + key[..]
    }

    constructor (name: seq<Byte>, key: seq<Byte>)
      requires |name| <= NAME_FIELD && |key| <= KEY_FIELD
      ensures Valid() && fresh(this.name) && fresh(this.key)
      ensures Packed() == Field(name, NAME_FIELD) + Field(key, KEY_FIELD)
    {
      var n := FillField(name, NAME_FIELD);
      if |name| < NAME_FIELD { n[|name|] := 0; }
      var k := FillField(key, KEY_FIELD);
      this.name := n;
      this.key := k;
      new;
      assert this.name[..] == Field(name, NAME_FIELD);
    }
  }
}
