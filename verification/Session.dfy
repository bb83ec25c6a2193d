/** The session protocol: client and server as two machines that exchange messages over two FIFO
    byte streams. The states are the places where each program sends, waits or decides. */
module Session {
  import opened Bytes
  import opened Names
  import opened Options
  import opened Packets
  import opened Wire

  // ---------- Messages ----------

  datatype Body = NameBody | UuidBody | KeyBody | AesBody | FileBody(current: nat, total: nat) | CrcBody | PathBody | IdBody

  /** A header of the client, a header of the server, or a payload; each is written on its own. */
  datatype Msg = Request(code: Uint16, size: nat) | Answer(code: Uint16, size: nat) | Payload(body: Body)

  /** One session: the length of the ciphertext, the length of the encrypted AES key, whether the
      client has a me.info file, and for each round whether the two checksums agree. */
  datatype Setup = Setup(n: nat, aes: nat, hasInfo: bool, agree: seq<bool>)

  ghost predicate ValidSetup(x: Setup) {
    0 < x.n < 0x8000_0000 && x.n % 16 == 0 && |x.agree| == TIMES_TO_SEND
  }

  function WireSize(x: Setup, m: Msg): nat {
    match m
    case Request(_, _) => HEADER_SIZE
    case Answer(_, _) => REPLY_SIZE
    case Payload(NameBody) => NAME_FIELD
    case Payload(UuidBody) => UUID_SIZE
    case Payload(KeyBody) => NAME_FIELD + KEY_FIELD
    case Payload(AesBody) => UUID_SIZE + x.aes
    case Payload(FileBody(_, _)) => FIXED + C
    case Payload(CrcBody) => CRC_MESSAGE_SIZE
    case Payload(PathBody) => NAME_FIELD
    case Payload(IdBody) => UUID_SIZE
  }

  // ---------- The client ----------

  /** k is the round, i the packet in it; back says that a reconnect fell back to a registration. */
  datatype Client =
    | CStart | CName(code: Uint16) | CRegistered | CUuid(back: bool) | CKeyHeader(back: bool) | CKey(back: bool)
    | CAnswer | CAnswerBack | CAes(size: nat)
    | CFileHeader(k: nat, i: nat) | CFile(k: nat, i: nat) | CCrcHeader(k: nat) | CCrc(k: nat, size: nat)
    | CResendHeader(k: nat) | CResend(k: nat) | CCloseHeader(k: nat) | CClose(k: nat)
    | CAcceptHeader(k: nat) | CAccept(k: nat, size: nat)
    | CDone(k: nat) | CRefused | CError | CFailed | CConfused

  predicate ClientEnded(c: Client) {
    c.CDone? || c.CRefused? || c.CError? || c.CFailed? || c.CConfused?
  }

  /** What the client writes next, and where that takes it. */
  function ClientSends(x: Setup, c: Client): Option<(Msg, Client)> {
    match c
    case CStart =>
      var code := if x.hasInfo then RECONNECT_REQUEST else REGISTRATION_REQUEST;
      Some((Request(code, NAME_FIELD), CName(code)))
    case CName(code) => Some((Payload(NameBody), if code == RECONNECT_REQUEST then CAnswer else CRegistered))
    case CKeyHeader(back) => Some((Request(SEND_PUB_KEY, NAME_FIELD + KEY_FIELD), CKey(back)))
    case CKey(back) => Some((Payload(KeyBody), if back then CAnswerBack else CAnswer))
    case CFileHeader(k, i) => Some((Request(SEND_FILE, FIXED + C), CFile(k, i)))
    case CFile(k, i) =>
      Some((Payload(FileBody(i, AnnouncedTotal(x.n))), if i < PacketCount(x.n) then CFileHeader(k, i + 1) else CCrcHeader(k)))
    case CResendHeader(k) => Some((Request(RESEND, NAME_FIELD), CResend(k)))
    case CResend(k) => Some((Payload(PathBody), CFileHeader(k + 1, 1)))
    case CCloseHeader(k) => Some((Request(ClosingCode(k), NAME_FIELD), CClose(k)))
    case CClose(k) => Some((Payload(PathBody), CAcceptHeader(k)))
    case _ => None
  }

  /** How many bytes a waiting client reads next. */
  function ClientWants(x: Setup, c: Client): Option<nat> {
    match c
    case CRegistered => Some(REPLY_SIZE)
    case CUuid(_) => Some(UUID_SIZE)
    case CAnswer => Some(REPLY_SIZE)
    case CAnswerBack => Some(REPLY_SIZE)
    case CAes(size) => Some(size)
    case CCrcHeader(_) => Some(REPLY_SIZE)
    case CCrc(_, size) => Some(size)
    case CAcceptHeader(_) => Some(REPLY_SIZE)
    case CAccept(_, size) => Some(size)
    case _ => None
  }

  /** Where a message takes a waiting client; None for a message of another kind or code than it expects. */
  function ClientReads(x: Setup, c: Client, m: Msg): Option<Client> {
    match (c, m)
    case (CRegistered, Answer(code, _)) =>
      if code == FAILED_REGISTRATION then Some(CRefused) else if code == SUCCESSFUL_REGISTRATION then Some(CUuid(false)) else None
    case (CUuid(back), Payload(UuidBody)) => Some(CKeyHeader(back))
    case (CAnswer, Answer(code, size)) =>
      if code == FAILED_REGISTRATION then Some(CRefused)
      else if code == GENERIC_ERROR then Some(CError)
      else if code == FAILED_RECONNECT then Some(CUuid(true))
      else if code == SUCCESSFUL_RECONNECT || code == SEND_AES then Some(CAes(size))
      else None
    case (CAnswerBack, Answer(code, size)) =>
      if code == GENERIC_ERROR then Some(CError)
      else if code == SUCCESSFUL_RECONNECT || code == SEND_AES then Some(CAes(size))
      else None
    case (CAes(_), Payload(AesBody)) => Some(CFileHeader(1, 1))
    case (CCrcHeader(k), Answer(code, size)) =>
      if code == GENERIC_ERROR then Some(CError) else if code == SEND_CRC then Some(CCrc(k, size)) else None
    case (CCrc(k, _), Payload(CrcBody)) =>
      if k < 1 || k > |x.agree| then None
      else if x.agree[k - 1] then Some(CCloseHeader(k))
      else if k < TIMES_TO_SEND then Some(CResendHeader(k))
      else Some(CCloseHeader(k + 1))
    case (CAcceptHeader(k), Answer(code, size)) =>
      if code == GENERIC_ERROR then Some(CError) else if code == ACCEPT_MESSAGE then Some(CAccept(k, size)) else None
    case (CAccept(k, _), Payload(IdBody)) => Some(CDone(k))
    case _ => None
  }

  // ---------- The server ----------

  /** length is what has been put together of the file; code is that of the message being handled. */
  datatype Server =
    | SRequest | SName(code: Uint16, size: nat) | SDecide(code: Uint16) | SReject
    | SUuidHeader(back: bool) | SUuid(back: bool) | SKeyHeader(back: bool) | SKey(back: bool, size: nat) | SKeyStored(back: bool)
    | SDbError | SAesHeader(code: Uint16) | SAes
    | SFileHeader(length: nat) | SFile(length: nat, size: nat) | SStore(length: nat) | SStoreError
    | SCrcHeader | SCrc | SAnswer | SAnswerName(code: Uint16, size: nat)
    | SAcceptHeader(code: Uint16) | SAccept(code: Uint16) | SUpdate(code: Uint16) | SUpdateError
    | SDone | SRefused | SFailed | SConfused

  predicate ServerEnded(s: Server) {
    s.SDone? || s.SRefused? || s.SFailed? || s.SConfused?
  }

  function ServerWants(s: Server): Option<nat> {
    match s
    case SRequest => Some(HEADER_SIZE)
    case SName(_, size) => Some(size)
    case SKeyHeader(_) => Some(HEADER_SIZE)
    case SKey(_, size) => Some(size)
    case SFileHeader(_) => Some(HEADER_SIZE)
    case SFile(_, size) => Some(size)
    case SAnswer => Some(HEADER_SIZE)
    case SAnswerName(_, size) => Some(size)
    case _ => None
  }

  /** Where a message takes a waiting server; None for a message of another kind or code than it expects. */
  function ServerReads(x: Setup, s: Server, m: Msg): Option<Server> {
    match (s, m)
    case (SRequest, Request(code, size)) =>
      if code == REGISTRATION_REQUEST || code == RECONNECT_REQUEST then Some(SName(code, size)) else None
    case (SName(code, _), Payload(NameBody)) => Some(SDecide(code))
    case (SKeyHeader(back), Request(code, size)) => if code == SEND_PUB_KEY then Some(SKey(back, size)) else None
    case (SKey(back, _), Payload(KeyBody)) => Some(SKeyStored(back))
    case (SFileHeader(length), Request(code, size)) => if code == SEND_FILE then Some(SFile(length, size)) else None
    case (SFile(length, _), Payload(FileBody(current, total))) =>
      if current * C != length + C || total != AnnouncedTotal(x.n) then None
      else if current != total then Some(SFileHeader(length + C))
      else Some(SStore(length + if x.n % C != 0 then x.n % C else C))
    case (SAnswer, Request(code, size)) =>
      if code == CORRECT_CRC || code == RESEND || code == FAILED_AND_FINISH then Some(SAnswerName(code, size)) else None
    case (SAnswerName(code, _), Payload(PathBody)) => if code == RESEND then Some(SFileHeader(0)) else Some(SAcceptHeader(code))
    case _ => None
  }

  /** What a server that is not waiting does: a message it writes, or nothing, and where that takes
      it. Whether the name is known, the key can be used, the file can be written, or the database
      can be, and what self.reconnect holds, is open. An exception is a separate kind of step. */
  ghost predicate ServerActs(s: Server, out: Option<Msg>, s': Server, x: Setup) {
    match s
    case SDecide(code) =>
      out == None && (s' == SReject || s' == SUuidHeader(code == RECONNECT_REQUEST)
                      || (code == RECONNECT_REQUEST && (s' == SAesHeader(SUCCESSFUL_RECONNECT) || s' == SAesHeader(SEND_AES))))
    case SReject => out == Some(Answer(FAILED_REGISTRATION, 0)) && s' == SRefused
    case SUuidHeader(back) => out == Some(Answer(if back then FAILED_RECONNECT else SUCCESSFUL_REGISTRATION, 0)) && s' == SUuid(back)
    case SUuid(back) => out == Some(Payload(UuidBody)) && s' == SKeyHeader(back)
    case SKeyStored(back) =>
      out == None && if back then s' == SAesHeader(SUCCESSFUL_RECONNECT) || s' == SAesHeader(SEND_AES)
                     else s' == SAesHeader(SEND_AES) || s' == SDbError
    case SDbError => out == Some(Answer(GENERIC_ERROR, 0)) && s' == SAesHeader(SEND_AES)
    case SAesHeader(code) => out == Some(Answer(code, UUID_SIZE + x.aes)) && s' == SAes
    case SAes => out == Some(Payload(AesBody)) && s' == SFileHeader(0)
    case SStore(length) => out == None && length % 16 == 0 && (s' == SCrcHeader || s' == SStoreError)
    case SStoreError => out == Some(Answer(GENERIC_ERROR, 0)) && s' == SFailed
    case SCrcHeader => out == Some(Answer(SEND_CRC, CRC_MESSAGE_SIZE)) && s' == SCrc
    case SCrc => out == Some(Payload(CrcBody)) && s' == SAnswer
    case SAcceptHeader(code) => out == Some(Answer(ACCEPT_MESSAGE, UUID_SIZE)) && s' == SAccept(code)
    case SAccept(code) => out == Some(Payload(IdBody)) && s' == SUpdate(code)
    case SUpdate(code) => out == None && (s' == SDone || s' == SUpdateError)
    case SUpdateError => out == Some(Answer(GENERIC_ERROR, 0)) && s' == SDone
    case _ => false
  }

  // ---------- Both together ----------

  /** What has happened so far: complete transmissions, requests to send again, files stored and
      reported, and the Verified flag of every database update. */
  datatype History = History(sent: nat, resent: nat, stored: nat, updates: seq<bool>)

  datatype State = State(c: Client, s: Server, up: seq<Msg>, down: seq<Msg>, h: History)

  const INITIAL: State := State(CStart, SRequest, [], [], History(0, 0, 0, []))

  function Writes(x: Setup, c: Client, h: History): History {
    match c
    case CFile(_, i) => if i < PacketCount(x.n) then h else h.(sent := h.sent + 1)
    case CResend(_) => h.(resent := h.resent + 1)
    case _ => h
  }

  function Acts(s: Server, s': Server, h: History): History {
    match s
    case SStore(_) => if s'.SCrcHeader? then h.(stored := h.stored + 1) else h
    case SUpdate(code) => h.(updates := h.updates + [code == CORRECT_CRC])
    case _ => h
  }

  ghost predicate ClientSendStep(x: Setup, a: State, b: State) {
    var sends := ClientSends(x, a.c);
    sends.Some? && b == a.(c := sends.value.1, up := a.up + [sends.value.0], h := Writes(x, a.c, a.h))
  }

  ghost predicate ClientReadStep(x: Setup, a: State, b: State) {
    && ClientWants(x, a.c).Some? && |a.down| > 0
    && b.c == (if ClientWants(x, a.c) == Some(WireSize(x, a.down[0])) && ClientReads(x, a.c, a.down[0]).Some?
               then ClientReads(x, a.c, a.down[0]).value else CConfused)
    && b == a.(c := b.c, down := a.down[1..])
  }

  /** The end of the stream: the other side is gone and nothing is left to read. */
  ghost predicate ClientEofStep(x: Setup, a: State, b: State) {
    ClientWants(x, a.c).Some? && a.down == [] && ServerEnded(a.s) && b == a.(c := CFailed)
  }

  ghost predicate ServerReadStep(x: Setup, a: State, b: State) {
    && ServerWants(a.s).Some? && |a.up| > 0
    && b.s == (if ServerWants(a.s) == Some(WireSize(x, a.up[0])) && ServerReads(x, a.s, a.up[0]).Some?
               then ServerReads(x, a.s, a.up[0]).value else SConfused)
    && b == a.(s := b.s, up := a.up[1..])
  }

  ghost predicate ServerActStep(x: Setup, a: State, b: State, out: Option<Msg>) {
    && ServerActs(a.s, out, b.s, x)
    && b == a.(s := b.s, down := a.down + (if out.Some? then [out.value] else []), h := Acts(a.s, b.s, a.h))
  }

  ghost predicate ServerEofStep(a: State, b: State) {
    ServerWants(a.s).Some? && a.up == [] && ClientEnded(a.c) && b == a.(s := SFailed)
  }

  /** The decryption of a message that is not made of whole blocks raises. */
  ghost predicate DecryptionFails(a: State, b: State) {
    a.s.SStore? && a.s.length % 16 != 0 && b == a.(s := SFailed)
  }

  /** The steps of the two programs. */
  ghost predicate Step(x: Setup, a: State, b: State) {
    || ClientSendStep(x, a, b) || ClientReadStep(x, a, b) || ClientEofStep(x, a, b)
    || ServerReadStep(x, a, b) || ServerEofStep(a, b) || DecryptionFails(a, b)
    || exists out :: ServerActStep(x, a, b, out)
  }

  /** Either side may also be ended by an exception anywhere. */
  ghost predicate Abort(a: State, b: State) {
    || (!ClientEnded(a.c) && b == a.(c := CFailed))
    || (!ServerEnded(a.s) && b == a.(s := SFailed))
  }

  ghost predicate Next(x: Setup, a: State, b: State) {
    Step(x, a, b) || Abort(a, b)
  }

  ghost predicate IsRun(x: Setup, run: seq<State>) {
    |run| > 0 && run[0] == INITIAL && forall i :: 0 <= i < |run| - 1 ==> Next(x, run[i], run[i + 1])
  }

  // ---------- The invariant ----------

  /** A server whose decryption is bound to fail reads nothing any more. */
  predicate Doomed(s: Server) {
    s.SStore? && s.length % 16 != 0
  }

  /** Where the client is once it has read everything that is on its way to it, if all of that is of
      the kind and the size it expects. A side that has ended ignores what still arrives. */
  function DrainClient(x: Setup, c: Client, down: seq<Msg>): Option<Client>
    decreases |down|
  {
    if |down| == 0 then Some(c)
    else
      var c' := ClientTakes(x, c, down[0]);
      if c'.None? then None else DrainClient(x, c'.value, down[1..])
  }

  function ClientTakes(x: Setup, c: Client, m: Msg): Option<Client> {
    if ClientEnded(c) then Some(c)
    else if ClientWants(x, c) == Some(WireSize(x, m)) then ClientReads(x, c, m)
    else None
  }

  function DrainServer(x: Setup, s: Server, up: seq<Msg>): Option<Server>
    decreases |up|
  {
    if |up| == 0 then Some(s)
    else
      var s' := ServerTakes(x, s, up[0]);
      if s'.None? then None else DrainServer(x, s'.value, up[1..])
  }

  function ServerTakes(x: Setup, s: Server, m: Msg): Option<Server> {
    if ServerEnded(s) || Doomed(s) then Some(s)
    else if ServerWants(s) == Some(WireSize(x, m)) then ServerReads(x, s, m)
    else None
  }

  /** Round k is one of those the loop runs, and the rounds before it disagreed. */
  ghost predicate InRound(x: Setup, k: nat) {
    1 <= k <= TIMES_TO_SEND == |x.agree| && forall j :: 0 <= j < k - 1 ==> !x.agree[j]
  }

  /** The client closes with k: the first round that agreed, or 5 when none did. */
  ghost predicate ClosesWith(x: Setup, k: nat) {
    && 1 <= k <= TIMES_TO_SEND + 1 && |x.agree| == TIMES_TO_SEND
    && (forall j :: 0 <= j < k - 1 ==> !x.agree[j])
    && (k <= TIMES_TO_SEND ==> x.agree[k - 1])
  }

  function RoundsOf(k: nat): nat {
    if k <= TIMES_TO_SEND then k else TIMES_TO_SEND
  }

  /** What the client has sent by the time it is at c. */
  ghost predicate ClientHistory(x: Setup, c: Client, h: History) {
    match c
    case CFileHeader(k, i) => InRound(x, k) && 1 <= i <= PacketCount(x.n) && h.sent == h.resent == k - 1
    case CFile(k, i) => InRound(x, k) && 1 <= i <= PacketCount(x.n) && h.sent == h.resent == k - 1
    case CCrcHeader(k) => InRound(x, k) && h.sent == k && h.resent == k - 1
    case CCrc(k, _) => InRound(x, k) && h.sent == k && h.resent == k - 1
    case CResendHeader(k) => InRound(x, k + 1) && h.sent == k && h.resent == k - 1
    case CResend(k) => InRound(x, k + 1) && h.sent == k && h.resent == k - 1
    case CCloseHeader(k) => ClosesWith(x, k) && h.sent == RoundsOf(k) && h.resent == h.sent - 1
    case CClose(k) => ClosesWith(x, k) && h.sent == RoundsOf(k) && h.resent == h.sent - 1
    case CAcceptHeader(k) => ClosesWith(x, k) && h.sent == RoundsOf(k) && h.resent == h.sent - 1
    case CAccept(k, _) => ClosesWith(x, k) && h.sent == RoundsOf(k) && h.resent == h.sent - 1
    case CDone(k) => ClosesWith(x, k) && h.sent == RoundsOf(k) && h.resent == h.sent - 1
    case CRefused => true
    case CError => true
    case CFailed => true
    case CConfused => false
    case _ => h.sent == h.resent == 0
  }

  ghost predicate RightTotal(x: Setup) {
    AnnouncedTotal(x.n) == PacketCount(x.n)
  }

  /** What the server has put together and done by the time it is at s. With a wrong total it never
      gets past the decryption. */
  ghost predicate ServerHistory(x: Setup, s: Server, h: History) {
    && (h.stored > 0 || h.updates != [] ==> RightTotal(x))
    && match s
       case SFileHeader(length) => length % C == 0 && length < AnnouncedTotal(x.n) * C && h.updates == []
       case SFile(length, _) => length % C == 0 && length < AnnouncedTotal(x.n) * C && h.updates == []
       case SStore(length) => (if RightTotal(x) then length == x.n else length % 16 != 0) && h.updates == []
       case SStoreError => RightTotal(x) && h.updates == []
       case SCrcHeader => RightTotal(x) && h.updates == []
       case SCrc => RightTotal(x) && h.updates == []
       case SAnswer => RightTotal(x) && h.updates == []
       case SAnswerName(_, _) => RightTotal(x) && h.updates == []
       case SAcceptHeader(_) => RightTotal(x) && h.updates == []
       case SAccept(_) => RightTotal(x) && h.updates == []
       case SUpdate(_) => RightTotal(x) && h.updates == []
       case SUpdateError => |h.updates| == 1
       case SDone => |h.updates| == 1
       case SFailed => |h.updates| <= 1
       case SConfused => false
       case _ => h.updates == []
  }

  /** How often the server has stored the file when a client that has read everything is at c. */
  ghost predicate ClientStored(c: Client, h: History) {
    match c
    case CFileHeader(k, _) => h.stored == k - 1
    case CFile(k, _) => h.stored == k - 1
    case CCrcHeader(k) => k - 1 <= h.stored <= k
    case CCrc(k, _) => h.stored == k
    case CResendHeader(k) => h.stored == k
    case CResend(k) => h.stored == k
    case CCloseHeader(k) => h.stored == RoundsOf(k)
    case CClose(k) => h.stored == RoundsOf(k)
    case CAcceptHeader(k) => h.stored == RoundsOf(k)
    case CAccept(k, _) => h.stored == RoundsOf(k)
    case CDone(k) => h.stored == RoundsOf(k)
    case CRefused => true
    case CError => true
    case CFailed => true
    case _ => h.stored == 0
  }

  /** How the two sides stand to each other when nothing is on its way. */
  ghost predicate InStep(x: Setup, c: Client, s: Server, h: History) {
    c.CError? || c.CFailed? || (ClientStored(c, h) && (s.SFailed? || Paired(x, c, s, h)))
  }

  ghost predicate Paired(x: Setup, c: Client, s: Server, h: History) {
    if Doomed(s) then (c.CFileHeader? || c.CFile? || c.CCrcHeader?) && h.stored == c.k - 1 else
    match s
    case SRequest => c == CStart
    case SName(code, size) => c == CName(code) && size == NAME_FIELD && (code == REGISTRATION_REQUEST || code == RECONNECT_REQUEST)
    case SDecide(code) => (c == if code == RECONNECT_REQUEST then CAnswer else CRegistered)
    case SReject => (c == CRegistered || c == CAnswer)
    case SUuidHeader(back) => (c == if back then CAnswer else CRegistered)
    case SUuid(back) => c == CUuid(back)
    case SKeyHeader(back) => c == CKeyHeader(back)
    case SKey(back, size) => c == CKey(back) && size == NAME_FIELD + KEY_FIELD
    case SKeyStored(back) => (c == if back then CAnswerBack else CAnswer)
    case SDbError => c == CAnswer
    case SAesHeader(code) => (c == CAnswer || c == CAnswerBack) && (code == SUCCESSFUL_RECONNECT || code == SEND_AES)
    case SAes => c == CAes(UUID_SIZE + x.aes)
    case SFileHeader(length) => c.CFileHeader? && c.i <= AnnouncedTotal(x.n) && length == (c.i - 1) * C
    case SFile(length, size) => c.CFile? && c.i <= AnnouncedTotal(x.n) && length == (c.i - 1) * C && size == FIXED + C
    case SStore(length) => c.CCrcHeader? && length == x.n && h.stored == c.k - 1
    case SStoreError => c.CCrcHeader?
    case SCrcHeader => c.CCrcHeader? && h.stored == c.k
    case SCrc => c.CCrc? && c.size == CRC_MESSAGE_SIZE
    case SAnswer => c.CResendHeader? || c.CCloseHeader?
    case SAnswerName(code, size) =>
      && size == NAME_FIELD
      && ((c.CResend? && code == RESEND) || (c.CClose? && code == ClosingCode(c.k)))
    case SAcceptHeader(code) => c.CAcceptHeader? && code == ClosingCode(c.k)
    case SAccept(code) => c.CAccept? && c.size == UUID_SIZE && code == ClosingCode(c.k)
    case SUpdate(code) => c.CDone? && code == ClosingCode(c.k)
    case SUpdateError => c.CDone? && h.updates == [c.k <= TIMES_TO_SEND]
    case SDone => c.CDone? && h.updates == [c.k <= TIMES_TO_SEND]
    case SRefused => c == CRefused
    case _ => false
  }

  ghost predicate Inv(x: Setup, a: State) {
    var c, s := DrainClient(x, a.c, a.down), DrainServer(x, a.s, a.up);
    && c.Some? && s.Some? && InStep(x, c.value, s.value, a.h)
    && ClientHistory(x, a.c, a.h) && ClientHistory(x, c.value, a.h) && ServerHistory(x, a.s, a.h)
  }

  // ---------- Every step keeps it ----------

  lemma {:induction false} DrainClientSnoc(x: Setup, c: Client, down: seq<Msg>, m: Msg)
    requires DrainClient(x, c, down).Some?
    ensures DrainClient(x, c, down + [m]) == ClientTakes(x, DrainClient(x, c, down).value, m)
    decreases |down|
  {
    hide ClientTakes;
    if |down| == 0 {
      assert down + [m] == [m];
    } else {
      assert (down + [m])[1..] == down[1..] + [m];
      DrainClientSnoc(x, ClientTakes(x, c, down[0]).value, down[1..], m);
    }
  }

  lemma {:induction false} DrainServerSnoc(x: Setup, s: Server, up: seq<Msg>, m: Msg)
    requires DrainServer(x, s, up).Some?
    ensures DrainServer(x, s, up + [m]) == ServerTakes(x, DrainServer(x, s, up).value, m)
    decreases |up|
  {
    hide ServerTakes;
    if |up| == 0 {
      assert up + [m] == [m];
    } else {
      assert (up + [m])[1..] == up[1..] + [m];
      DrainServerSnoc(x, ServerTakes(x, s, up[0]).value, up[1..], m);
    }
  }

  lemma {:induction false} EndedClientIgnores(x: Setup, c: Client, down: seq<Msg>)
    requires ClientEnded(c)
    ensures DrainClient(x, c, down) == Some(c)
    decreases |down|
  {
    if |down| == 0 {
    } else {
      EndedClientIgnores(x, c, down[1..]);
    }
  }

  lemma {:induction false} EndedServerIgnores(x: Setup, s: Server, up: seq<Msg>)
    requires ServerEnded(s) || Doomed(s)
    ensures DrainServer(x, s, up) == Some(s)
    decreases |up|
  {
    if |up| == 0 {
    } else {
      EndedServerIgnores(x, s, up[1..]);
    }
  }

  ghost predicate SendKeeps(x: Setup, c: Client, s: Server, h: History) {
    ClientSends(x, c).Some? ==>
      var (m, c') := ClientSends(x, c).value;
      var s' := ServerTakes(x, s, m);
      && s'.Some? && InStep(x, c', s'.value, Writes(x, c, h)) && ClientHistory(x, c', Writes(x, c, h))
  }

  ghost predicate Joined(x: Setup, c: Client, s: Server, h: History) {
    ValidSetup(x) && InStep(x, c, s, h) && ClientHistory(x, c, h)
  }

  lemma SendOfRequest(x: Setup, c: Client, s: Server, h: History)
    requires Joined(x, c, s, h)
    ensures c.CStart? || c.CName? ==> SendKeeps(x, c, s, h)
  {
    hide AnnouncedTotal, PacketCount, InRound, ClosesWith, ClosingCode;
  }

  lemma SendOfKey(x: Setup, c: Client, s: Server, h: History)
    requires Joined(x, c, s, h)
    ensures c.CKeyHeader? || c.CKey? ==> SendKeeps(x, c, s, h)
  {
    hide AnnouncedTotal, PacketCount, InRound, ClosesWith, ClosingCode;
  }

  lemma SendOfFileHeader(x: Setup, c: Client, s: Server, h: History)
    requires Joined(x, c, s, h)
    ensures c.CFileHeader? ==> SendKeeps(x, c, s, h)
  {
    hide AnnouncedTotal, PacketCount, InRound, ClosesWith;
    AnnouncedTotalIff(x.n);
  }

  lemma SendOfFile(x: Setup, c: Client, s: Server, h: History)
    requires Joined(x, c, s, h)
    ensures c.CFile? ==> SendKeeps(x, c, s, h)
  {
    hide AnnouncedTotal, PacketCount, InRound, ClosesWith;
    AnnouncedTotalIff(x.n);
    if c.CFile? && s.SFile? { FileArrives(x, s.length, s.size, c.i); }
  }

  lemma SendOfResendHeader(x: Setup, c: Client, s: Server, h: History)
    requires Joined(x, c, s, h)
    ensures c.CResendHeader? ==> SendKeeps(x, c, s, h)
  {
    hide AnnouncedTotal, PacketCount, InRound, ClosesWith;
    AnnouncedTotalIff(x.n);
  }

  lemma SendOfResend(x: Setup, c: Client, s: Server, h: History)
    requires Joined(x, c, s, h)
    ensures c.CResend? ==> SendKeeps(x, c, s, h)
  {
    hide AnnouncedTotal, PacketCount, InRound, ClosesWith;
    AnnouncedTotalIff(x.n);
  }

  lemma SendOfCloseHeader(x: Setup, c: Client, s: Server, h: History)
    requires Joined(x, c, s, h)
    ensures c.CCloseHeader? ==> SendKeeps(x, c, s, h)
  {
    hide AnnouncedTotal, PacketCount, InRound, ClosesWith;
    AnnouncedTotalIff(x.n);
  }

  lemma SendOfClose(x: Setup, c: Client, s: Server, h: History)
    requires Joined(x, c, s, h)
    ensures c.CClose? ==> SendKeeps(x, c, s, h)
  {
    hide AnnouncedTotal, PacketCount, InRound, ClosesWith;
    AnnouncedTotalIff(x.n);
  }

  /** A client that sends finds the server, once it has read the rest, waiting for just that message. */
  lemma SendKeepsInStep(x: Setup, c: Client, s: Server, h: History)
    requires Joined(x, c, s, h)
    ensures SendKeeps(x, c, s, h)
  {
    hide SendKeeps, Joined;
    SendOfRequest(x, c, s, h);
    SendOfKey(x, c, s, h);
    SendOfFileHeader(x, c, s, h);
    SendOfFile(x, c, s, h);
    SendOfResendHeader(x, c, s, h);
    SendOfResend(x, c, s, h);
    SendOfCloseHeader(x, c, s, h);
    SendOfClose(x, c, s, h);
    NothingElseSends(x, c, s, h);
  }

  lemma NothingElseSends(x: Setup, c: Client, s: Server, h: History)
    ensures SendKeeps(x, c, s, h) || c.CStart? || c.CName? || c.CKeyHeader? || c.CKey? || c.CFileHeader? || c.CFile?
            || c.CResendHeader? || c.CResend? || c.CCloseHeader? || c.CClose?
  {
    hide InStep, ClientHistory, ServerTakes;
  }

  /** The packet the server takes for the last one completes the file, or leaves it without whole blocks. */
  lemma FileArrives(x: Setup, length: nat, size: nat, i: nat)
    requires ValidSetup(x) && 1 <= i <= AnnouncedTotal(x.n) && length == (i - 1) * C
    ensures var s' := ServerReads(x, SFile(length, size), Payload(FileBody(i, AnnouncedTotal(x.n)))).value;
            if i < AnnouncedTotal(x.n) then s' == SFileHeader(i * C)
            else if RightTotal(x) then s' == SStore(x.n)
            else Doomed(s')
  {
    AnnouncedTotalIff(x.n);
    LastSizeIsRemainder(x.n);
    if i == AnnouncedTotal(x.n) < PacketCount(x.n) {
      Shortfall(x.n);
      ShortLength(x.n, PacketCount(x.n) - AnnouncedTotal(x.n));
    }
  }

  ghost predicate ActKeeps(x: Setup, c: Client, s: Server, h: History, out: Option<Msg>, s': Server) {
    var c' := if out.None? then Some(c) else ClientTakes(x, c, out.value);
    var h' := Acts(s, s', h);
    && c'.Some? && InStep(x, c'.value, s', h') && ClientHistory(x, c'.value, h') && ServerHistory(x, s', h')
  }

  ghost predicate Acting(x: Setup, c: Client, s: Server, h: History, out: Option<Msg>, s': Server) {
    Joined(x, c, s, h) && ServerHistory(x, s, h) && ServerActs(s, out, s', x)
  }

  lemma ActOnRequest(x: Setup, c: Client, s: Server, h: History, out: Option<Msg>, s': Server)
    requires Acting(x, c, s, h, out, s')
    ensures s.SDecide? ==> ActKeeps(x, c, s, h, out, s')
  {
    hide AnnouncedTotal, PacketCount, InRound, ClosesWith;
  }

  lemma ActOnReject(x: Setup, c: Client, s: Server, h: History, out: Option<Msg>, s': Server)
    requires Acting(x, c, s, h, out, s')
    ensures s.SReject? ==> ActKeeps(x, c, s, h, out, s')
  {
    hide AnnouncedTotal, PacketCount, InRound, ClosesWith;
  }

  lemma ActOnUuidHeader(x: Setup, c: Client, s: Server, h: History, out: Option<Msg>, s': Server)
    requires Acting(x, c, s, h, out, s')
    ensures s.SUuidHeader? ==> ActKeeps(x, c, s, h, out, s')
  {
    hide AnnouncedTotal, PacketCount, InRound, ClosesWith;
  }

  lemma ActOnUuid(x: Setup, c: Client, s: Server, h: History, out: Option<Msg>, s': Server)
    requires Acting(x, c, s, h, out, s')
    ensures s.SUuid? ==> ActKeeps(x, c, s, h, out, s')
  {
    hide AnnouncedTotal, PacketCount, InRound, ClosesWith;
  }

  lemma ActOnKeyStored(x: Setup, c: Client, s: Server, h: History, out: Option<Msg>, s': Server)
    requires Acting(x, c, s, h, out, s')
    ensures s.SKeyStored? ==> ActKeeps(x, c, s, h, out, s')
  {
    hide AnnouncedTotal, PacketCount, InRound, ClosesWith;
  }

  lemma ActOnDbError(x: Setup, c: Client, s: Server, h: History, out: Option<Msg>, s': Server)
    requires Acting(x, c, s, h, out, s')
    ensures s.SDbError? ==> ActKeeps(x, c, s, h, out, s')
  {
    hide AnnouncedTotal, PacketCount, InRound, ClosesWith;
  }

  lemma ActOnAesHeader(x: Setup, c: Client, s: Server, h: History, out: Option<Msg>, s': Server)
    requires Acting(x, c, s, h, out, s')
    ensures s.SAesHeader? ==> ActKeeps(x, c, s, h, out, s')
  {
    hide AnnouncedTotal, PacketCount, InRound, ClosesWith;
  }

  lemma ActOnAes(x: Setup, c: Client, s: Server, h: History, out: Option<Msg>, s': Server)
    requires Acting(x, c, s, h, out, s')
    ensures s.SAes? ==> ActKeeps(x, c, s, h, out, s')
  {
    hide AnnouncedTotal, PacketCount, ClosesWith;
    AnnouncedTotalIff(x.n);
  }

  lemma ActOnStore(x: Setup, c: Client, s: Server, h: History, out: Option<Msg>, s': Server)
    requires Acting(x, c, s, h, out, s')
    ensures s.SStore? ==> ActKeeps(x, c, s, h, out, s')
  {
    hide AnnouncedTotal, PacketCount, InRound, ClosesWith;
  }

  lemma ActOnStoreError(x: Setup, c: Client, s: Server, h: History, out: Option<Msg>, s': Server)
    requires Acting(x, c, s, h, out, s')
    ensures s.SStoreError? ==> ActKeeps(x, c, s, h, out, s')
  {
    hide AnnouncedTotal, PacketCount, InRound, ClosesWith;
  }

  lemma ActOnCrcHeader(x: Setup, c: Client, s: Server, h: History, out: Option<Msg>, s': Server)
    requires Acting(x, c, s, h, out, s')
    ensures s.SCrcHeader? ==> ActKeeps(x, c, s, h, out, s')
  {
    hide AnnouncedTotal, PacketCount, InRound, ClosesWith;
  }

  lemma ActOnCrc(x: Setup, c: Client, s: Server, h: History, out: Option<Msg>, s': Server)
    requires Acting(x, c, s, h, out, s')
    ensures s.SCrc? ==> ActKeeps(x, c, s, h, out, s')
  {
    hide AnnouncedTotal, PacketCount;
  }

  lemma ActOnAcceptHeader(x: Setup, c: Client, s: Server, h: History, out: Option<Msg>, s': Server)
    requires Acting(x, c, s, h, out, s')
    ensures s.SAcceptHeader? ==> ActKeeps(x, c, s, h, out, s')
  {
    hide AnnouncedTotal, PacketCount, InRound, ClosesWith;
  }

  lemma ActOnAccept(x: Setup, c: Client, s: Server, h: History, out: Option<Msg>, s': Server)
    requires Acting(x, c, s, h, out, s')
    ensures s.SAccept? ==> ActKeeps(x, c, s, h, out, s')
  {
    hide AnnouncedTotal, PacketCount, InRound, ClosesWith;
  }

  lemma ActOnUpdate(x: Setup, c: Client, s: Server, h: History, out: Option<Msg>, s': Server)
    requires Acting(x, c, s, h, out, s')
    ensures s.SUpdate? ==> ActKeeps(x, c, s, h, out, s')
  {
    hide AnnouncedTotal, PacketCount, InRound, ClosesWith;
  }

  lemma ActOnUpdateError(x: Setup, c: Client, s: Server, h: History, out: Option<Msg>, s': Server)
    requires Acting(x, c, s, h, out, s')
    ensures s.SUpdateError? ==> ActKeeps(x, c, s, h, out, s')
  {
    hide AnnouncedTotal, PacketCount, InRound, ClosesWith;
  }

  /** What the server writes is what the client, once it has read the rest, waits for. */
  lemma ActKeepsInStep(x: Setup, c: Client, s: Server, h: History, out: Option<Msg>, s': Server)
    requires Acting(x, c, s, h, out, s')
    ensures ActKeeps(x, c, s, h, out, s')
  {
    ActOnRequest(x, c, s, h, out, s');
    ActOnReject(x, c, s, h, out, s');
    ActOnUuidHeader(x, c, s, h, out, s');
    ActOnUuid(x, c, s, h, out, s');
    ActOnKeyStored(x, c, s, h, out, s');
    ActOnDbError(x, c, s, h, out, s');
    ActOnAesHeader(x, c, s, h, out, s');
    ActOnAes(x, c, s, h, out, s');
    ActOnStore(x, c, s, h, out, s');
    ActOnStoreError(x, c, s, h, out, s');
    ActOnCrcHeader(x, c, s, h, out, s');
    ActOnCrc(x, c, s, h, out, s');
    ActOnAcceptHeader(x, c, s, h, out, s');
    ActOnAccept(x, c, s, h, out, s');
    ActOnUpdate(x, c, s, h, out, s');
    ActOnUpdateError(x, c, s, h, out, s');
    hide ActKeeps, Joined, ServerHistory;
  }

  lemma ClientSendKeeps(x: Setup, a: State, b: State)
    requires ValidSetup(x) && Inv(x, a) && ClientSendStep(x, a, b)
    ensures Inv(x, b)
  {
    hide InStep, ClientHistory, ServerHistory, ServerTakes, Writes;
    SenderHasReadAll(x, a.c, a.down);
    var s := DrainServer(x, a.s, a.up).value;
    SendKeepsInStep(x, a.c, s, a.h);
    DrainServerSnoc(x, a.s, a.up, ClientSends(x, a.c).value.0);
    WritesKeepUpdates(x, a.c, a.s, a.h);
  }

  lemma SenderHasReadAll(x: Setup, c: Client, down: seq<Msg>)
    requires ClientSends(x, c).Some? && DrainClient(x, c, down).Some?
    ensures down == []
  {
  }

  lemma WritesKeepUpdates(x: Setup, c: Client, s: Server, h: History)
    requires ServerHistory(x, s, h)
    ensures ServerHistory(x, s, Writes(x, c, h))
  {
  }

  lemma ClientReadKeeps(x: Setup, a: State, b: State)
    requires ValidSetup(x) && Inv(x, a) && ClientReadStep(x, a, b)
    ensures Inv(x, b) && b.c != CConfused
  {
    hide InStep, ServerHistory, AnnouncedTotal, PacketCount, DrainServer;
    ReadKeepsHistory(x, a.c, a.down[0], a.h);
  }

  lemma ReadKeepsHistory(x: Setup, c: Client, m: Msg, h: History)
    requires ValidSetup(x) && ClientHistory(x, c, h) && ClientReads(x, c, m).Some?
    ensures ClientHistory(x, ClientReads(x, c, m).value, h)
    ensures ClientReads(x, c, m) != Some(CConfused)
  {
    hide AnnouncedTotal, PacketCount;
    AnnouncedTotalIff(x.n);
  }

  lemma ClientFailureKeeps(x: Setup, a: State, b: State)
    requires Inv(x, a) && b == a.(c := CFailed)
    ensures Inv(x, b)
  {
    hide DrainClient, DrainServer, ServerHistory;
    EndedClientIgnores(x, CFailed, a.down);
  }

  lemma ServerFailureKeeps(x: Setup, a: State, b: State)
    requires Inv(x, a) && !ServerEnded(a.s) && b == a.(s := SFailed)
    ensures Inv(x, b)
  {
    hide DrainClient, DrainServer, ClientHistory;
    EndedServerIgnores(x, SFailed, a.up);
  }

  lemma ServerReadKeeps(x: Setup, a: State, b: State)
    requires ValidSetup(x) && Inv(x, a) && ServerReadStep(x, a, b)
    ensures Inv(x, b) && b.s != SConfused
  {
    hide InStep, ClientHistory, ServerHistory, DrainClient;
    TakeKeepsHistory(x, a.s, a.up[0], a.h);
  }

  lemma TakeKeepsHistory(x: Setup, s: Server, m: Msg, h: History)
    requires ValidSetup(x) && ServerHistory(x, s, h) && ServerReads(x, s, m).Some?
    ensures ServerHistory(x, ServerReads(x, s, m).value, h)
    ensures ServerReads(x, s, m) != Some(SConfused)
  {
    hide AnnouncedTotal, PacketCount;
    AnnouncedTotalIff(x.n);
    if s.SFile? && m.Payload? && m.body.FileBody? { FileArrives(x, s.length, s.size, m.body.current); }
  }

  lemma ServerActKeeps(x: Setup, a: State, b: State, out: Option<Msg>)
    requires ValidSetup(x) && Inv(x, a) && ServerActStep(x, a, b, out)
    ensures Inv(x, b)
  {
    hide InStep, ClientHistory, ServerHistory, ClientTakes, Acts;
    ActorHasReadAll(x, a.s, out, b.s, a.up);
    var c := DrainClient(x, a.c, a.down).value;
    ActKeepsInStep(x, c, a.s, a.h, out, b.s);
    if out.Some? { DrainClientSnoc(x, a.c, a.down, out.value); } else { assert a.down + [] == a.down; }
    ActsKeepClientHistory(x, a.c, a.s, b.s, a.h);
  }

  lemma ActorHasReadAll(x: Setup, s: Server, out: Option<Msg>, s': Server, up: seq<Msg>)
    requires ServerActs(s, out, s', x) && DrainServer(x, s, up).Some?
    ensures up == []
  {
  }

  lemma ActsKeepClientHistory(x: Setup, c: Client, s: Server, s': Server, h: History)
    requires ClientHistory(x, c, h)
    ensures ClientHistory(x, c, Acts(s, s', h))
  {
  }

  lemma NextKeepsInv(x: Setup, a: State, b: State)
    requires ValidSetup(x) && Inv(x, a) && Next(x, a, b)
    ensures Inv(x, b)
  {
    hide Inv, ClientSendStep, ClientReadStep, ServerReadStep, ServerActStep;
    if ClientSendStep(x, a, b) { ClientSendKeeps(x, a, b); }
    else if ClientReadStep(x, a, b) { ClientReadKeeps(x, a, b); }
    else if ServerReadStep(x, a, b) { ServerReadKeeps(x, a, b); }
    else if b == a.(c := CFailed) { ClientFailureKeeps(x, a, b); }
    else if !ServerEnded(a.s) && b == a.(s := SFailed) { ServerFailureKeeps(x, a, b); }
    else {
      var out :| ServerActStep(x, a, b, out);
      ServerActKeeps(x, a, b, out);
    }
  }

  lemma {:induction false} RunKeepsInv(x: Setup, run: seq<State>, i: nat)
    requires ValidSetup(x) && IsRun(x, run) && i < |run|
    ensures Inv(x, run[i])
  {
    hide Next, Inv;
    if i == 0 {
      InitialInv(x);
    } else {
      RunKeepsInv(x, run, i - 1);
      NextKeepsInv(x, run[i - 1], run[i]);
    }
  }

  lemma InitialInv(x: Setup)
    ensures Inv(x, INITIAL)
  {
  }

  // ---------- What that means ----------

  /** In every state of every run, the next message of each stream that a side is waiting on has just
      the size it is about to read, and the kind and code it expects; nobody is ever confused. */
  lemma LockStep(x: Setup, run: seq<State>, i: nat)
    requires ValidSetup(x) && IsRun(x, run) && i < |run|
    ensures var a := run[i];
            && a.c != CConfused && a.s != SConfused
            && (ClientWants(x, a.c).Some? && |a.down| > 0 ==>
                  ClientWants(x, a.c) == Some(WireSize(x, a.down[0])) && ClientReads(x, a.c, a.down[0]).Some?)
            && (ServerWants(a.s).Some? && |a.up| > 0 ==>
                  ServerWants(a.s) == Some(WireSize(x, a.up[0])) && ServerReads(x, a.s, a.up[0]).Some?)
  {
    RunKeepsInv(x, run, i);
    hide IsRun, InStep, WireSize;
    var a := run[i];
    if ClientWants(x, a.c).Some? && |a.down| > 0 { assert ClientTakes(x, a.c, a.down[0]).Some?; }
    if ServerWants(a.s).Some? && |a.up| > 0 { assert ServerTakes(x, a.s, a.up[0]).Some?; }
  }

  function Flatten(messages: seq<seq<Byte>>): seq<Byte> {
    if |messages| == 0 then [] else messages[0] + Flatten(messages[1..])
  }

  /** The messages on their way to a waiting side, each written as bytes of its own size. */
  predicate WrittenAs(x: Setup, ms: seq<Msg>, bytes: seq<seq<Byte>>) {
    |bytes| == |ms| && forall i :: 0 <= i < |ms| ==> |bytes[i]| == WireSize(x, ms[i])
  }

  /** So on the byte streams, which know no messages, reading the number of bytes it wants gives each
      side exactly the next message, and leaves exactly the ones after it. */
  lemma BytesInStep(x: Setup, run: seq<State>, i: nat, up: seq<seq<Byte>>, down: seq<seq<Byte>>)
    requires ValidSetup(x) && IsRun(x, run) && i < |run|
    requires WrittenAs(x, run[i].up, up) && WrittenAs(x, run[i].down, down)
    ensures var want := ServerWants(run[i].s);
            want.Some? && |run[i].up| > 0 ==>
              |Flatten(up)| >= want.value && Flatten(up)[..want.value] == up[0] && Flatten(up)[want.value..] == Flatten(up[1..])
    ensures var want := ClientWants(x, run[i].c);
            want.Some? && |run[i].down| > 0 ==>
              |Flatten(down)| >= want.value && Flatten(down)[..want.value] == down[0] && Flatten(down)[want.value..] == Flatten(down[1..])
  {
    LockStep(x, run, i);
    hide IsRun, WireSize;
  }

  /** The two sides never wait for each other, and as long as one of them has not ended, one of the
      two programs has a step to take. */
  lemma NoDeadlock(x: Setup, run: seq<State>, i: nat) returns (b: State)
    requires ValidSetup(x) && IsRun(x, run) && i < |run|
    requires !ClientEnded(run[i].c) || !ServerEnded(run[i].s)
    ensures !(ClientWants(x, run[i].c).Some? && run[i].down == [] && ServerWants(run[i].s).Some? && run[i].up == [])
    ensures Step(x, run[i], b)
  {
    RunKeepsInv(x, run, i);
    hide IsRun;
    b := SomeStep(x, run[i]);
  }

  lemma SomeStep(x: Setup, a: State) returns (b: State)
    requires ValidSetup(x) && Inv(x, a) && (!ClientEnded(a.c) || !ServerEnded(a.s))
    ensures !(ClientWants(x, a.c).Some? && a.down == [] && ServerWants(a.s).Some? && a.up == [])
    ensures Step(x, a, b)
  {
    hide AnnouncedTotal, PacketCount, WireSize;
    NotBothWaiting(x, a);
    if ClientSends(x, a.c).Some? {
      b := a.(c := ClientSends(x, a.c).value.1, up := a.up + [ClientSends(x, a.c).value.0], h := Writes(x, a.c, a.h));
      assert ClientSendStep(x, a, b);
    } else if ClientWants(x, a.c).Some? && |a.down| > 0 {
      var c := if ClientWants(x, a.c) == Some(WireSize(x, a.down[0])) && ClientReads(x, a.c, a.down[0]).Some?
               then ClientReads(x, a.c, a.down[0]).value else CConfused;
      b := a.(c := c, down := a.down[1..]);
      assert ClientReadStep(x, a, b);
    } else if ServerWants(a.s).Some? && |a.up| > 0 {
      var s := if ServerWants(a.s) == Some(WireSize(x, a.up[0])) && ServerReads(x, a.s, a.up[0]).Some?
               then ServerReads(x, a.s, a.up[0]).value else SConfused;
      b := a.(s := s, up := a.up[1..]);
      assert ServerReadStep(x, a, b);
    } else if ClientWants(x, a.c).Some? && ServerEnded(a.s) {
      b := a.(c := CFailed);
      assert ClientEofStep(x, a, b);
    } else if ServerWants(a.s).Some? && ClientEnded(a.c) {
      b := a.(s := SFailed);
      assert ServerEofStep(a, b);
    } else if Doomed(a.s) {
      b := a.(s := SFailed);
    } else {
      b := ActOf(x, a);
    }
  }

  lemma NotBothWaiting(x: Setup, a: State)
    requires Inv(x, a)
    ensures !(ClientWants(x, a.c).Some? && a.down == [] && ServerWants(a.s).Some? && a.up == [])
    ensures ClientSends(x, a.c).Some? || ClientWants(x, a.c).Some? || ClientEnded(a.c)
  {
    hide AnnouncedTotal, PacketCount, WireSize, ClientHistory, ServerHistory;
  }

  lemma ActOf(x: Setup, a: State) returns (b: State)
    requires ServerWants(a.s).None? && !ServerEnded(a.s) && !Doomed(a.s)
    ensures Step(x, a, b)
  {
    hide Step;
    var out, s' := AnAct(x, a.s);
    b := a.(s := s', down := a.down + (if out.Some? then [out.value] else []), h := Acts(a.s, s', a.h));
    ActIsStep(x, a, b, out);
  }

  lemma ActIsStep(x: Setup, a: State, b: State, out: Option<Msg>)
    requires ServerActStep(x, a, b, out)
    ensures Step(x, a, b)
  {
  }

  lemma AnAct(x: Setup, s: Server) returns (out: Option<Msg>, s': Server)
    requires ServerWants(s).None? && !ServerEnded(s) && !Doomed(s)
    ensures ServerActs(s, out, s', x)
  {
    match s
    case SDecide(_) => out, s' := None, SReject;
    case SReject => out, s' := Some(Answer(FAILED_REGISTRATION, 0)), SRefused;
    case SUuidHeader(back) => out, s' := Some(Answer(if back then FAILED_RECONNECT else SUCCESSFUL_REGISTRATION, 0)), SUuid(back);
    case SUuid(back) => out, s' := Some(Payload(UuidBody)), SKeyHeader(back);
    case SKeyStored(_) => out, s' := None, SAesHeader(SEND_AES);
    case SDbError => out, s' := Some(Answer(GENERIC_ERROR, 0)), SAesHeader(SEND_AES);
    case SAesHeader(code) => out, s' := Some(Answer(code, UUID_SIZE + x.aes)), SAes;
    case SAes => out, s' := Some(Payload(AesBody)), SFileHeader(0);
    case SStore(_) => out, s' := None, SCrcHeader;
    case SStoreError => out, s' := Some(Answer(GENERIC_ERROR, 0)), SFailed;
    case SCrcHeader => out, s' := Some(Answer(SEND_CRC, CRC_MESSAGE_SIZE)), SCrc;
    case SCrc => out, s' := Some(Payload(CrcBody)), SAnswer;
    case SAcceptHeader(code) => out, s' := Some(Answer(ACCEPT_MESSAGE, UUID_SIZE)), SAccept(code);
    case SAccept(code) => out, s' := Some(Payload(IdBody)), SUpdate(code);
    case SUpdate(_) => out, s' := None, SDone;
    case SUpdateError => out, s' := Some(Answer(GENERIC_ERROR, 0)), SDone;
  }

  // ---------- The database and the rounds ----------

  /** The first of the given rounds that agrees, counted from 1, or one more when none does. */
  function ClosingRound(agree: seq<bool>): (k: nat)
    ensures 1 <= k <= |agree| + 1
    ensures forall j :: 0 <= j < k - 1 ==> !agree[j]
    ensures k <= |agree| ==> agree[k - 1]
  {
    if |agree| == 0 || agree[0] then 1 else 1 + ClosingRound(agree[1..])
  }

  lemma ClosesWithIff(x: Setup, k: nat)
    requires ValidSetup(x)
    ensures ClosesWith(x, k) <==> k == ClosingRound(x.agree)
  {
  }

  /** The client has written its closing header, or has ended before. */
  predicate PastClosing(c: Client) {
    c.CClose? || c.CAcceptHeader? || c.CAccept? || c.CDone? || c.CRefused? || c.CError? || c.CFailed?
  }

  /** The rounds have gone by as they had to before this code could be sent. */
  ghost predicate Justified(x: Setup, c: Client, h: History, code: Uint16) {
    var k := ClosingRound(x.agree);
    && PastClosing(c) && code == ClosingCode(k)
    && h.sent == h.stored == RoundsOf(k) && h.resent == RoundsOf(k) - 1
  }

  predicate IsClosing(m: Msg) {
    m.Request? && (m.code == CORRECT_CRC || m.code == FAILED_AND_FINISH)
  }

  /** The closing code a server is handling. */
  function HeldCode(s: Server): Option<Uint16> {
    match s
    case SAnswerName(code, _) => if code == RESEND then None else Some(code)
    case SAcceptHeader(code) => Some(code)
    case SAccept(code) => Some(code)
    case SUpdate(code) => Some(code)
    case _ => None
  }

  function CodeOf(verified: bool): Uint16 {
    if verified then CORRECT_CRC else FAILED_AND_FINISH
  }

  /** Every closing code on its way, being handled, or in the database is justified. */
  ghost predicate Settled(x: Setup, a: State) {
    && (forall m :: m in a.up && IsClosing(m) ==> Justified(x, a.c, a.h, m.code))
    && (HeldCode(a.s).Some? ==> Justified(x, a.c, a.h, HeldCode(a.s).value))
    && (forall u :: u in a.h.updates ==> Justified(x, a.c, a.h, CodeOf(u)))
  }

  lemma SendSettles(x: Setup, a: State, b: State)
    requires ValidSetup(x) && Inv(x, a) && Settled(x, a) && ClientSendStep(x, a, b)
    ensures Settled(x, b)
  {
    hide AnnouncedTotal, PacketCount, Paired, ServerHistory, DrainServer, WireSize;
    SenderHasReadAll(x, a.c, a.down);
    if a.c.CCloseHeader? { ClosesWithIff(x, a.c.k); }
    assert a.h.updates == b.h.updates;
  }

  lemma ClientMovesSettle(x: Setup, a: State, b: State)
    requires PastClosing(a.c) ==> PastClosing(b.c)
    requires Settled(x, a) && b == a.(c := b.c, down := b.down)
    ensures Settled(x, b)
  {
  }

  lemma ClientReadSettles(x: Setup, a: State, b: State)
    requires ValidSetup(x) && Inv(x, a) && Settled(x, a) && ClientReadStep(x, a, b)
    ensures Settled(x, b)
  {
    ClientReadKeeps(x, a, b);
    hide AnnouncedTotal, PacketCount, Inv, WireSize, Settled;
    ClientMovesSettle(x, a, b);
  }

  lemma ServerReadSettles(x: Setup, a: State, b: State)
    requires ValidSetup(x) && Inv(x, a) && Settled(x, a) && ServerReadStep(x, a, b)
    ensures Settled(x, b)
  {
    ServerReadKeeps(x, a, b);
    hide AnnouncedTotal, PacketCount, Inv, WireSize, Justified;
    assert forall m :: m in b.up ==> m in a.up;
  }

  lemma ActSettles(x: Setup, a: State, b: State, out: Option<Msg>)
    requires ValidSetup(x) && Inv(x, a) && Settled(x, a) && ServerActStep(x, a, b, out)
    ensures Settled(x, b)
  {
    ActorHasReadAll(x, a.s, out, b.s, a.up);
    hide AnnouncedTotal, PacketCount, InStep, ClientHistory, WireSize;
  }

  lemma NextSettles(x: Setup, a: State, b: State)
    requires ValidSetup(x) && Inv(x, a) && Settled(x, a) && Next(x, a, b)
    ensures Settled(x, b)
  {
    hide Inv, ClientSendStep, ClientReadStep, ServerReadStep, ServerActStep, Justified;
    if ClientSendStep(x, a, b) { SendSettles(x, a, b); }
    else if ClientReadStep(x, a, b) { ClientReadSettles(x, a, b); }
    else if ServerReadStep(x, a, b) { ServerReadSettles(x, a, b); }
    else if b == a.(c := CFailed) { ClientMovesSettle(x, a, b); }
    else if !ServerEnded(a.s) && b == a.(s := SFailed) {}
    else {
      var out :| ServerActStep(x, a, b, out);
      ActSettles(x, a, b, out);
    }
  }

  lemma {:induction false} RunSettles(x: Setup, run: seq<State>, i: nat)
    requires ValidSetup(x) && IsRun(x, run) && i < |run|
    ensures Settled(x, run[i])
  {
    hide Next, Inv;
    if i == 0 {
    } else {
      RunKeepsInv(x, run, i - 1);
      RunSettles(x, run, i - 1);
      hide Settled;
      NextSettles(x, run[i - 1], run[i]);
    }
  }

  /** The database never says more than the rounds did: in every state of every run, whatever either
      side has broken off, there is at most one update, and once there is one, the rounds are over. It
      says verified exactly when some round agreed; the client had then made just the transmissions up
      to the first such round, or all four, and the server had stored the file as often. */
  lemma UpdatesAreJustified(x: Setup, run: seq<State>, i: nat)
    requires ValidSetup(x) && IsRun(x, run) && i < |run|
    ensures |run[i].h.updates| <= 1
    ensures run[i].h.updates != [] ==>
              var k, h := ClosingRound(x.agree), run[i].h;
              && h.updates == [k <= TIMES_TO_SEND] && h.sent == h.stored == RoundsOf(k) && h.resent == RoundsOf(k) - 1
    ensures run[i].h.updates == [true] ==> true in x.agree
    ensures run[i].h.updates == [false] ==> true !in x.agree
  {
    RunKeepsInv(x, run, i);
    RunSettles(x, run, i);
    hide IsRun, InStep, ClientHistory, DrainClient, DrainServer;
    var h := run[i].h;
    assert |h.updates| <= 1;
    if h.updates != [] {
      var u, k := h.updates[0], ClosingRound(x.agree);
      assert h.updates == [u] && u in h.updates;
      if k > TIMES_TO_SEND { assert forall j :: 0 <= j < |x.agree| ==> !x.agree[j]; }
    }
  }

  /** The retry protocol over whole runs: a client that is through with k has made min(k, 4) complete
      transmissions and one request fewer; k up to 4 is the first round whose checksums agree, and 5
      means that none did; the server has stored the file as often. Once it is done as well, it has
      updated its database once, as verified exactly when k is not 5. */
  lemma RetryProtocol(x: Setup, run: seq<State>, i: nat)
    requires ValidSetup(x) && IsRun(x, run) && i < |run|
    ensures |run[i].h.updates| <= 1 && (run[i].s == SDone ==> |run[i].h.updates| == 1)
    ensures run[i].h.updates != [] ==> run[i].h.updates == [ClosingRound(x.agree) <= TIMES_TO_SEND]
    ensures run[i].c.CDone? ==>
              var k, h := run[i].c.k, run[i].h;
              && k == ClosingRound(x.agree) && h.sent == h.stored == RoundsOf(k) && h.resent == RoundsOf(k) - 1
  {
    UpdatesAreJustified(x, run, i);
    RunKeepsInv(x, run, i);
    hide IsRun, ServerTakes, ClientTakes;
    var a := run[i];
    if a.c.CDone? {
      EndedClientIgnores(x, a.c, a.down);
      ClosesWithIff(x, a.c.k);
    }
  }

  /** With a wrong announced total no run ever stores a file or updates the database. */
  lemma WrongTotalStoresNothing(x: Setup, run: seq<State>, i: nat)
    requires ValidSetup(x) && IsRun(x, run) && i < |run| && AnnouncedTotal(x.n) != PacketCount(x.n)
    ensures run[i].h.stored == 0 && run[i].h.updates == []
  {
    RunKeepsInv(x, run, i);
    hide IsRun;
  }

  // ---------- Every run ends ----------

  /** The sends left after round k, when every round to come fails. */
  function SendsAfter(x: Setup, k: nat): nat
    decreases TIMES_TO_SEND - k
  {
    if k >= TIMES_TO_SEND then 2 else 2 + 2 * PacketCount(x.n) + SendsAfter(x, k + 1)
  }

  /** An upper bound on the messages the client still writes. */
  function SendsLeft(x: Setup, c: Client): int {
    var file := 2 * PacketCount(x.n) + SendsAfter(x, 1);
    match c
    case CStart => 6 + file
    case CName(code) => if code == RECONNECT_REQUEST then 3 + file else 5 + file
    case CRegistered => 4 + file
    case CUuid(back) => if back then 2 + file else 4 + file
    case CKeyHeader(back) => if back then 2 + file else 4 + file
    case CKey(back) => if back then 1 + file else 3 + file
    case CAnswer => 2 + file
    case CAnswerBack => file
    case CAes(_) => file
    case CFileHeader(k, i) => 2 * (PacketCount(x.n) - i + 1) + SendsAfter(x, k)
    case CFile(k, i) => 2 * (PacketCount(x.n) - i + 1) + SendsAfter(x, k) - 1
    case CCrcHeader(k) => SendsAfter(x, k)
    case CCrc(k, _) => SendsAfter(x, k)
    case CResendHeader(k) => SendsAfter(x, k)
    case CResend(k) => SendsAfter(x, k) - 1
    case CCloseHeader(_) => 2
    case CClose(_) => 1
    case _ => 0
  }

  /** How much the server can do before it reads again. */
  function ServerRank(s: Server): nat {
    match s
    case SDecide(_) => 9
    case SKeyStored(_) => 8
    case SDbError => 7
    case SAcceptHeader(_) => 7
    case SStore(_) => 6
    case SUuidHeader(_) => 5
    case SAesHeader(_) => 5
    case SCrcHeader => 5
    case SAccept(_) => 5
    case SUuid(_) => 3
    case SAes => 3
    case SCrc => 3
    case SUpdate(_) => 3
    case SReject => 2
    case SStoreError => 2
    case SUpdateError => 2
    case _ => if ServerEnded(s) then 0 else 1
  }

  /** A message to the server pays for what the server does on it. */
  function Measure(x: Setup, a: State): int {
    11 * SendsLeft(x, a.c) + (if ClientEnded(a.c) then 0 else 1) + 10 * |a.up| + |a.down| + ServerRank(a.s)
  }

  lemma SendUsesUp(x: Setup, c: Client, h: History)
    requires ValidSetup(x) && ClientHistory(x, c, h) && ClientSends(x, c).Some?
    ensures SendsLeft(x, ClientSends(x, c).value.1) <= SendsLeft(x, c) - 1
    ensures !ClientEnded(c) && !ClientEnded(ClientSends(x, c).value.1)
  {
    hide AnnouncedTotal, PacketCount;
  }

  lemma ReadUsesUp(x: Setup, c: Client, m: Msg, h: History)
    requires ValidSetup(x) && ClientHistory(x, c, h) && ClientReads(x, c, m).Some?
    ensures SendsLeft(x, ClientReads(x, c, m).value) <= SendsLeft(x, c) && !ClientEnded(c)
  {
    hide AnnouncedTotal, PacketCount;
  }

  lemma SendsLeftNonNegative(x: Setup, c: Client, h: History)
    requires ValidSetup(x) && ClientHistory(x, c, h)
    ensures 0 <= SendsLeft(x, c)
  {
    hide AnnouncedTotal, PacketCount;
  }

  lemma ServerReadRank(x: Setup, s: Server, m: Msg)
    requires ServerReads(x, s, m).Some?
    ensures ServerRank(ServerReads(x, s, m).value) <= 9 && ServerRank(s) == 1
  {
    hide AnnouncedTotal, PacketCount;
  }

  lemma ServerActRank(x: Setup, s: Server, out: Option<Msg>, s': Server)
    requires ServerActs(s, out, s', x)
    ensures ServerRank(s') + (if out.Some? then 2 else 1) <= ServerRank(s)
  {
  }

  lemma MeasureOnSend(x: Setup, a: State, b: State)
    requires ValidSetup(x) && Inv(x, a) && ClientSendStep(x, a, b)
    ensures Measure(x, b) < Measure(x, a)
  {
    hide InStep, ServerHistory, ClientHistory, SendsLeft, ServerRank, DrainClient, DrainServer, ClientSends;
    SendUsesUp(x, a.c, a.h);
  }

  lemma MeasureOnClientRead(x: Setup, a: State, b: State)
    requires ValidSetup(x) && Inv(x, a) && ClientReadStep(x, a, b)
    ensures Measure(x, b) < Measure(x, a)
  {
    hide InStep, ServerHistory, ClientHistory, SendsLeft, ServerRank, DrainServer, ClientReads;
    ReadUsesUp(x, a.c, a.down[0], a.h);
  }

  lemma MeasureOnServerRead(x: Setup, a: State, b: State)
    requires ValidSetup(x) && Inv(x, a) && ServerReadStep(x, a, b)
    ensures Measure(x, b) < Measure(x, a)
  {
    hide InStep, ServerHistory, ClientHistory, SendsLeft, ServerRank, DrainClient, ServerReads;
    assert ServerTakes(x, a.s, a.up[0]).Some?;
    ServerReadRank(x, a.s, a.up[0]);
  }

  lemma MeasureOnAct(x: Setup, a: State, b: State, out: Option<Msg>)
    requires ServerActStep(x, a, b, out)
    ensures Measure(x, b) < Measure(x, a)
  {
    hide SendsLeft, ServerRank, ServerActs;
    ServerActRank(x, a.s, out, b.s);
  }

  lemma MeasureOnEnd(x: Setup, a: State, b: State)
    requires ValidSetup(x) && ClientHistory(x, a.c, a.h)
    requires (!ClientEnded(a.c) && b == a.(c := CFailed)) || (!ServerEnded(a.s) && b == a.(s := SFailed))
    ensures Measure(x, b) < Measure(x, a)
  {
    hide ClientHistory;
    SendsLeftNonNegative(x, a.c, a.h);
    LiveServerRank(a.s);
  }

  lemma LiveServerRank(s: Server)
    ensures ServerEnded(s) <==> ServerRank(s) == 0
  {
  }

  lemma NextDecreases(x: Setup, a: State, b: State)
    requires ValidSetup(x) && Inv(x, a) && Next(x, a, b)
    ensures Measure(x, b) < Measure(x, a)
  {
    assert ClientHistory(x, a.c, a.h);
    hide Inv, ClientHistory, Measure, ClientSendStep, ClientReadStep, ServerReadStep, ServerActStep;
    if ClientSendStep(x, a, b) { MeasureOnSend(x, a, b); }
    else if ClientReadStep(x, a, b) { MeasureOnClientRead(x, a, b); }
    else if ServerReadStep(x, a, b) { MeasureOnServerRead(x, a, b); }
    else if !ClientEnded(a.c) && b == a.(c := CFailed) { MeasureOnEnd(x, a, b); }
    else if !ServerEnded(a.s) && b == a.(s := SFailed) { MeasureOnEnd(x, a, b); }
    else {
      var out :| ServerActStep(x, a, b, out);
      MeasureOnAct(x, a, b, out);
    }
  }

  lemma MeasureNonNegative(x: Setup, a: State)
    requires ValidSetup(x) && Inv(x, a)
    ensures 0 <= Measure(x, a)
  {
    hide SendsLeft, ServerRank, ClientHistory, InStep;
    SendsLeftNonNegative(x, a.c, a.h);
  }

  /** No run is longer than this, whatever the server finds and however often the sides abort. */
  function Bound(x: Setup): nat {
    156 + 88 * PacketCount(x.n)
  }

  lemma {:induction false} MeasureAlongRun(x: Setup, run: seq<State>, i: nat)
    requires ValidSetup(x) && IsRun(x, run) && i < |run|
    ensures Measure(x, run[i]) + i <= Measure(x, INITIAL)
  {
    hide Next, Measure, Inv;
    if i == 0 {
    } else {
      RunKeepsInv(x, run, i - 1);
      MeasureAlongRun(x, run, i - 1);
      NextDecreases(x, run[i - 1], run[i]);
    }
  }

  lemma RunsAreBounded(x: Setup, run: seq<State>)
    requires ValidSetup(x) && IsRun(x, run)
    ensures |run| <= Bound(x) + 1
  {
    var last := |run| - 1;
    RunKeepsInv(x, run, last);
    MeasureAlongRun(x, run, last);
    hide IsRun, Inv, PacketCount;
    MeasureNonNegative(x, run[last]);
    InitialMeasure(x);
  }

  lemma InitialMeasure(x: Setup)
    ensures Measure(x, INITIAL) <= Bound(x)
  {
    hide PacketCount;
    assert SendsAfter(x, 3) == 4 + 2 * PacketCount(x.n);
    assert SendsAfter(x, 2) == 6 + 4 * PacketCount(x.n);
    assert SendsAfter(x, 1) == 8 + 6 * PacketCount(x.n);
  }

  // ---------- Runs without exceptions ----------

  ghost predicate IsCleanRun(x: Setup, run: seq<State>) {
    IsRun(x, run) && forall i :: 0 <= i < |run| - 1 ==> Step(x, run[i], run[i + 1])
  }

  /** A server that has failed has told the client, or the client was gone before. */
  ghost predicate Clean(x: Setup, a: State) {
    && a.c != CFailed
    && (a.s.SFailed? ==> DrainClient(x, a.c, a.down) == Some(CError))
  }

  lemma CleanStep(x: Setup, a: State, b: State)
    requires ValidSetup(x) && RightTotal(x) && Inv(x, a) && Clean(x, a) && Step(x, a, b)
    ensures Clean(x, b)
  {
    hide AnnouncedTotal, PacketCount, WireSize, ServerActStep;
    if ClientSendStep(x, a, b) {
      SenderHasReadAll(x, a.c, a.down);
    } else if ClientReadStep(x, a, b) {
      ReadsNeverFail(x, a.c, a.down[0]);
    } else if ServerReadStep(x, a, b) {
      ServerReadsNeverFail(x, a.s, a.up[0]);
    } else if ServerEofStep(a, b) {
      EndedClientIgnores(x, a.c, a.down);
    } else if ClientEofStep(x, a, b) {
      EndedServerIgnores(x, a.s, a.up);
    } else if !DecryptionFails(a, b) {
      var out :| ServerActStep(x, a, b, out);
      CleanAct(x, a, b, out);
    }
  }

  lemma ServerReadsNeverFail(x: Setup, s: Server, m: Msg)
    ensures ServerReads(x, s, m) != Some(SFailed)
  {
  }

  lemma {:induction false} DrainNeverFails(x: Setup, c: Client, down: seq<Msg>)
    requires c != CFailed && DrainClient(x, c, down).Some?
    ensures DrainClient(x, c, down) != Some(CFailed)
    decreases |down|
  {
    if |down| == 0 {
    } else {
      ReadsNeverFail(x, c, down[0]);
      DrainNeverFails(x, ClientTakes(x, c, down[0]).value, down[1..]);
    }
  }

  lemma ReadsNeverFail(x: Setup, c: Client, m: Msg)
    ensures ClientReads(x, c, m) != Some(CFailed)
  {
  }

  lemma CleanAct(x: Setup, a: State, b: State, out: Option<Msg>)
    requires ValidSetup(x) && Inv(x, a) && Clean(x, a) && ServerActStep(x, a, b, out)
    ensures Clean(x, b)
  {
    hide AnnouncedTotal, PacketCount, ClientHistory, ServerHistory;
    DrainNeverFails(x, a.c, a.down);
    if a.s == SStoreError {
      ActorHasReadAll(x, a.s, out, b.s, a.up);
      DrainClientSnoc(x, a.c, a.down, out.value);
    }
  }

  lemma {:induction false} CleanRunStaysClean(x: Setup, run: seq<State>, i: nat)
    requires ValidSetup(x) && RightTotal(x) && IsCleanRun(x, run) && i < |run|
    ensures Clean(x, run[i])
  {
    hide Step, Inv, Clean, RightTotal;
    if i == 0 {
      InitialClean(x);
    } else {
      CleanRunStaysClean(x, run, i - 1);
      RunKeepsInv(x, run, i - 1);
      CleanStep(x, run[i - 1], run[i]);
    }
  }

  lemma InitialClean(x: Setup)
    ensures Clean(x, INITIAL)
  {
  }

  /** How a run without exceptions ends when the announced total is right: the file is through or
      given up by both sides, the name is refused by both, or the client has read of an error. */
  lemma CleanRunEnds(x: Setup, run: seq<State>)
    requires ValidSetup(x) && RightTotal(x) && IsCleanRun(x, run)
    requires ClientEnded(run[|run| - 1].c) && ServerEnded(run[|run| - 1].s)
    ensures var a := run[|run| - 1];
            (a.c.CDone? && a.s == SDone) || (a.c == CRefused && a.s == SRefused) || a.c == CError
  {
    var last := |run| - 1;
    RunKeepsInv(x, run, last);
    CleanRunStaysClean(x, run, last);
    hide IsCleanRun, AnnouncedTotal, PacketCount, ClientHistory, ServerHistory;
    var a := run[last];
    EndedClientIgnores(x, a.c, a.down);
    EndedServerIgnores(x, a.s, a.up);
  }
}
