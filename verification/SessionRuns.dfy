/** Runs of the session protocol that get somewhere: for every way the start can go, and for every way
    the rounds can go, there is a run without exceptions that ends as it should. */
module SessionRuns {
  import opened Bytes
  import opened Names
  import opened Options
  import opened Packets
  import opened Session
  import opened Wire

  // ---------- Putting steps together ----------

  ghost predicate Steps(x: Setup, run: seq<State>) {
    |run| > 0 && forall i :: 0 <= i < |run| - 1 ==> Step(x, run[i], run[i + 1])
  }

  ghost predicate Reaches(x: Setup, a: State, b: State) {
    exists run :: Steps(x, run) && run[0] == a && run[|run| - 1] == b
  }

  lemma OneStep(x: Setup, a: State, b: State)
    requires Step(x, a, b)
    ensures Reaches(x, a, b)
  {
    hide Step;
    assert Steps(x, [a, b]);
  }

  lemma Then(x: Setup, a: State, b: State, c: State)
    requires Reaches(x, a, b) && Reaches(x, b, c)
    ensures Reaches(x, a, c)
  {
    hide Step;
    var p :| Steps(x, p) && p[0] == a && p[|p| - 1] == b;
    var q :| Steps(x, q) && q[0] == b && q[|q| - 1] == c;
    var run := p + q[1..];
    forall i | 0 <= i < |run| - 1 ensures Step(x, run[i], run[i + 1]) {
      if i >= |p| - 1 { assert run[i] == q[i - |p| + 1] && run[i + 1] == q[i - |p| + 2]; }
    }
    assert Steps(x, run);
  }

  /** The client writes a message, and the server reads it. */
  lemma Sent(x: Setup, a: State, b: State)
    requires a.up == [] && ClientSends(x, a.c).Some?
    requires var m := ClientSends(x, a.c).value.0;
             && ServerWants(a.s) == Some(WireSize(x, m)) && ServerReads(x, a.s, m).Some?
             && b == a.(c := ClientSends(x, a.c).value.1, s := ServerReads(x, a.s, m).value, h := Writes(x, a.c, a.h))
    ensures Reaches(x, a, b)
  {
    hide ClientSends, ServerReads, Writes, ServerWants, WireSize;
    var (m, c) := ClientSends(x, a.c).value;
    var half := a.(c := c, up := [m], h := Writes(x, a.c, a.h));
    assert a.up + [m] == [m] && half.up[1..] == [];
    assert ClientSendStep(x, a, half) && ServerReadStep(x, half, b);
    OneStep(x, a, half);
    OneStep(x, half, b);
    Then(x, a, half, b);
  }

  /** The server writes a message, and the client reads it. */
  lemma Answered(x: Setup, a: State, m: Msg, b: State)
    requires a.down == [] && ServerActs(a.s, Some(m), b.s, x)
    requires ClientWants(x, a.c) == Some(WireSize(x, m)) && ClientReads(x, a.c, m) == Some(b.c)
    requires b == a.(c := b.c, s := b.s, h := Acts(a.s, b.s, a.h))
    ensures Reaches(x, a, b)
  {
    hide ClientReads, ServerActs, Acts, ClientWants, WireSize;
    var half := a.(s := b.s, down := [m], h := Acts(a.s, b.s, a.h));
    assert a.down + [m] == [m] && half.down[1..] == [];
    Acted(x, a, Some(m), half);
    assert ClientReadStep(x, half, b);
    OneStep(x, half, b);
    Then(x, a, half, b);
  }

  /** The server goes on, with or without writing a message. */
  lemma Acted(x: Setup, a: State, out: Option<Msg>, b: State)
    requires ServerActs(a.s, out, b.s, x)
    requires b == a.(s := b.s, down := a.down + (if out.Some? then [out.value] else []), h := Acts(a.s, b.s, a.h))
    ensures Reaches(x, a, b)
  {
    hide ServerActs, Acts;
    assert ServerActStep(x, a, b, out);
    OneStep(x, a, b);
  }

  // ---------- The ways a session can start ----------

  const NOTHING: History := History(0, 0, 0, [])

  function At(c: Client, s: Server, h: History): State {
    State(c, s, [], [], h)
  }

  /** The client has the AES key and the server waits for the first packet. */
  const STARTED: State := At(CFileHeader(1, 1), SFileHeader(0), NOTHING)

  function FirstCode(x: Setup): Uint16 {
    if x.hasInfo then RECONNECT_REQUEST else REGISTRATION_REQUEST
  }

  lemma Requests(x: Setup)
    ensures Reaches(x, INITIAL, At(if x.hasInfo then CAnswer else CRegistered, SDecide(FirstCode(x)), NOTHING))
  {
    hide Reaches;
    var code := FirstCode(x);
    var a, b := At(CName(code), SName(code, NAME_FIELD), NOTHING), At(if x.hasInfo then CAnswer else CRegistered, SDecide(code), NOTHING);
    Sent(x, INITIAL, a);
    Sent(x, a, b);
    Then(x, INITIAL, a, b);
  }

  /** The server has taken the name for a new one, and the client waits for its id. */
  function NewId(x: Setup): State {
    At(CUuid(x.hasInfo), SUuid(x.hasInfo), NOTHING)
  }

  lemma GetsNewId(x: Setup)
    ensures Reaches(x, INITIAL, NewId(x))
  {
    hide Reaches;
    var back := x.hasInfo;
    var a := At(if back then CAnswer else CRegistered, SDecide(FirstCode(x)), NOTHING);
    var b := a.(s := SUuidHeader(back));
    Requests(x);
    Acted(x, a, None, b);
    Answered(x, b, Answer(if back then FAILED_RECONNECT else SUCCESSFUL_REGISTRATION, 0), NewId(x));
    Then(x, INITIAL, a, b);
    Then(x, INITIAL, b, NewId(x));
  }

  /** The key has reached the server. */
  function KeyIsThere(x: Setup): State {
    At(if x.hasInfo then CAnswerBack else CAnswer, SKeyStored(x.hasInfo), NOTHING)
  }

  lemma SendsKey(x: Setup)
    ensures Reaches(x, NewId(x), KeyIsThere(x))
  {
    hide Reaches;
    var back := x.hasInfo;
    var d := At(CKeyHeader(back), SKeyHeader(back), NOTHING);
    var e := At(CKey(back), SKey(back, NAME_FIELD + KEY_FIELD), NOTHING);
    Answered(x, NewId(x), Payload(UuidBody), d);
    Sent(x, d, e);
    Sent(x, e, KeyIsThere(x));
    Then(x, NewId(x), d, e);
    Then(x, NewId(x), e, KeyIsThere(x));
  }

  /** The server has decided on a code for the AES key. */
  function Welcome(x: Setup, back: bool, code: Uint16): State {
    At(if back then CAnswerBack else CAnswer, SAesHeader(code), NOTHING)
  }

  lemma GetsAes(x: Setup, back: bool, code: Uint16)
    requires code == SEND_AES || code == SUCCESSFUL_RECONNECT
    ensures Reaches(x, Welcome(x, back, code), STARTED)
  {
    hide Reaches;
    var a, b := Welcome(x, back, code), At(CAes(UUID_SIZE + x.aes), SAes, NOTHING);
    Answered(x, a, Answer(code, UUID_SIZE + x.aes), b);
    Answered(x, b, Payload(AesBody), STARTED);
    Then(x, a, b, STARTED);
  }

  lemma NewIdStarts(x: Setup, reconnect: bool)
    ensures Reaches(x, NewId(x), STARTED)
  {
    hide Reaches;
    var code := if x.hasInfo && reconnect then SUCCESSFUL_RECONNECT else SEND_AES;
    var b := Welcome(x, x.hasInfo, code);
    SendsKey(x);
    Acted(x, KeyIsThere(x), None, b);
    GetsAes(x, x.hasInfo, code);
    Then(x, NewId(x), KeyIsThere(x), b);
    Then(x, NewId(x), b, STARTED);
  }

  /** A reconnect that is granted. */
  lemma GrantIsReached(x: Setup, code: Uint16)
    requires x.hasInfo && (code == SEND_AES || code == SUCCESSFUL_RECONNECT)
    ensures Reaches(x, INITIAL, Welcome(x, false, code))
  {
    hide Reaches;
    var a := At(CAnswer, SDecide(FirstCode(x)), NOTHING);
    Requests(x);
    Acted(x, a, None, Welcome(x, false, code));
    Then(x, INITIAL, a, Welcome(x, false, code));
  }

  const REFUSED: State := At(CRefused, SRefused, NOTHING)

  lemma RefusalIsReached(x: Setup)
    ensures Reaches(x, INITIAL, REFUSED)
  {
    hide Reaches;
    var a := At(if x.hasInfo then CAnswer else CRegistered, SDecide(FirstCode(x)), NOTHING);
    var b := a.(s := SReject);
    Requests(x);
    Acted(x, a, None, b);
    Answered(x, b, Answer(FAILED_REGISTRATION, 0), REFUSED);
    Then(x, INITIAL, a, b);
    Then(x, INITIAL, b, REFUSED);
  }

  /** The client has stopped at the error; the AES key is on its way all the same, and the server gives
      up when it finds the stream closed. */
  function RowFailed(x: Setup): State {
    State(CError, SFailed, [], [Answer(SEND_AES, UUID_SIZE + x.aes), Payload(AesBody)], NOTHING)
  }

  lemma RowErrorIsReached(x: Setup)
    requires !x.hasInfo
    ensures Reaches(x, NewId(x), RowFailed(x))
  {
    hide Reaches;
    var a := KeyIsThere(x);
    var b, c := a.(s := SDbError), At(CError, SAesHeader(SEND_AES), NOTHING);
    SendsKey(x);
    Acted(x, a, None, b);
    Answered(x, b, Answer(GENERIC_ERROR, 0), c);
    GoesOnAlone(x);
    Then(x, NewId(x), a, b);
    Then(x, NewId(x), b, c);
    Then(x, NewId(x), c, RowFailed(x));
  }

  lemma GoesOnAlone(x: Setup)
    ensures Reaches(x, At(CError, SAesHeader(SEND_AES), NOTHING), RowFailed(x))
  {
    hide Reaches;
    var c := At(CError, SAesHeader(SEND_AES), NOTHING);
    var d := c.(s := SAes, down := [Answer(SEND_AES, UUID_SIZE + x.aes)]);
    var e := RowFailed(x).(s := SFileHeader(0));
    Acted(x, c, Some(Answer(SEND_AES, UUID_SIZE + x.aes)), d);
    Acted(x, d, Some(Payload(AesBody)), e);
    assert ServerEofStep(e, RowFailed(x));
    OneStep(x, e, RowFailed(x));
    Then(x, c, d, e);
    Then(x, c, e, RowFailed(x));
  }

  // ---------- The rounds ----------

  /** The next packet is i of round k, and everything before it has arrived. */
  function AtPacket(k: nat, i: nat, h: History): State
    requires i > 0
  {
    At(CFileHeader(k, i), SFileHeader((i - 1) * C), h)
  }

  lemma PacketGoesOver(x: Setup, k: nat, i: nat, h: History)
    requires ValidSetup(x) && 1 <= i <= AnnouncedTotal(x.n)
    ensures var b := ServerReads(x, SFile((i - 1) * C, FIXED + C), Payload(FileBody(i, AnnouncedTotal(x.n))));
            && b.Some?
            && Reaches(x, AtPacket(k, i, h), At(if i < PacketCount(x.n) then CFileHeader(k, i + 1) else CCrcHeader(k), b.value,
                                                if i < PacketCount(x.n) then h else h.(sent := h.sent + 1)))
  {
    hide Reaches, AnnouncedTotal, PacketCount;
    var a := At(CFile(k, i), SFile((i - 1) * C, FIXED + C), h);
    var b := ServerReads(x, a.s, Payload(FileBody(i, AnnouncedTotal(x.n))));
    var c := At(if i < PacketCount(x.n) then CFileHeader(k, i + 1) else CCrcHeader(k), b.value,
                if i < PacketCount(x.n) then h else h.(sent := h.sent + 1));
    Sent(x, AtPacket(k, i, h), a);
    Sent(x, a, c);
    Then(x, AtPacket(k, i, h), a, c);
  }

  lemma {:induction false} FileGoesOver(x: Setup, k: nat, i: nat, h: History)
    requires ValidSetup(x) && RightTotal(x) && 1 <= i <= PacketCount(x.n)
    ensures Reaches(x, AtPacket(k, i, h), At(CCrcHeader(k), SStore(x.n), h.(sent := h.sent + 1)))
    decreases PacketCount(x.n) - i
  {
    hide Reaches, AnnouncedTotal, PacketCount, ServerReads;
    PacketGoesOver(x, k, i, h);
    FileArrives(x, (i - 1) * C, FIXED + C, i);
    if i == PacketCount(x.n) {
    } else {
      FileGoesOver(x, k, i + 1, h);
      Then(x, AtPacket(k, i, h), AtPacket(k, i + 1, h), At(CCrcHeader(k), SStore(x.n), h.(sent := h.sent + 1)));
    }
  }

  /** What has happened when k rounds are over and none has agreed. */
  function After(k: nat): History {
    History(k, k, k, [])
  }

  function RoundStart(k: nat): State
    requires k > 0
  {
    AtPacket(k, 1, After(k - 1))
  }

  /** The file is stored and both checksums are known to the client. */
  lemma RoundIsStored(x: Setup, k: nat)
    requires ValidSetup(x) && RightTotal(x) && InRound(x, k)
    ensures Reaches(x, RoundStart(k), At(if x.agree[k - 1] then CCloseHeader(k) else if k < TIMES_TO_SEND then CResendHeader(k) else CCloseHeader(k + 1),
                                         SAnswer, History(k, k - 1, k, [])))
  {
    hide Reaches, AnnouncedTotal, PacketCount;
    AnnouncedTotalIff(x.n);
    var a := At(CCrcHeader(k), SStore(x.n), History(k, k - 1, k - 1, []));
    var b := At(CCrcHeader(k), SCrcHeader, History(k, k - 1, k, []));
    FileGoesOver(x, k, 1, After(k - 1));
    Acted(x, a, None, b);
    ChecksumArrives(x, k, b.h);
    Then(x, RoundStart(k), a, b);
    var c := if x.agree[k - 1] then CCloseHeader(k) else if k < TIMES_TO_SEND then CResendHeader(k) else CCloseHeader(k + 1);
    Then(x, RoundStart(k), b, At(c, SAnswer, b.h));
  }

  lemma ChecksumArrives(x: Setup, k: nat, h: History)
    requires InRound(x, k)
    ensures Reaches(x, At(CCrcHeader(k), SCrcHeader, h),
                    At(if x.agree[k - 1] then CCloseHeader(k) else if k < TIMES_TO_SEND then CResendHeader(k) else CCloseHeader(k + 1), SAnswer, h))
  {
    hide Reaches;
    var b := At(CCrcHeader(k), SCrcHeader, h);
    var c := b.(s := SCrc, c := CCrc(k, CRC_MESSAGE_SIZE));
    var d := b.(s := SAnswer,
                c := if x.agree[k - 1] then CCloseHeader(k) else if k < TIMES_TO_SEND then CResendHeader(k) else CCloseHeader(k + 1));
    Answered(x, b, Answer(SEND_CRC, CRC_MESSAGE_SIZE), c);
    Answered(x, c, Payload(CrcBody), d);
    Then(x, b, c, d);
  }

  lemma {:induction false} RoundIsReached(x: Setup, k: nat)
    requires ValidSetup(x) && RightTotal(x) && InRound(x, k)
    ensures Reaches(x, STARTED, RoundStart(k))
    decreases k
  {
    hide Reaches, RightTotal;
    if k == 1 {
      Stays(x, STARTED);
    } else {
      RoundIsReached(x, k - 1);
      RoundIsStored(x, k - 1);
      var a := At(CResendHeader(k - 1), SAnswer, History(k - 1, k - 2, k - 1, []));
      var b := a.(c := CResend(k - 1), s := SAnswerName(RESEND, NAME_FIELD));
      Sent(x, a, b);
      Sent(x, b, RoundStart(k));
      Then(x, STARTED, RoundStart(k - 1), a);
      Then(x, STARTED, a, b);
      Then(x, STARTED, b, RoundStart(k));
    }
  }

  lemma Stays(x: Setup, a: State)
    ensures Reaches(x, a, a)
  {
    assert Steps(x, [a]);
  }

  /** The end of a session whose rounds went as x.agree says. When the tables cannot be written, an error
      is left in the stream. */
  function Finished(x: Setup, up: bool): State {
    var k := ClosingRound(x.agree);
    State(CDone(k), SDone, [], if up then [] else [Answer(GENERIC_ERROR, 0)],
          History(RoundsOf(k), RoundsOf(k) - 1, RoundsOf(k), [k <= TIMES_TO_SEND]))
  }

  lemma FinishIsReached(x: Setup, up: bool)
    requires ValidSetup(x) && RightTotal(x)
    ensures Reaches(x, STARTED, Finished(x, up))
  {
    hide Reaches, RightTotal;
    var k := ClosingRound(x.agree);
    var last := RoundsOf(k);
    RoundIsReached(x, last);
    RoundIsStored(x, last);
    var a := At(CCloseHeader(k), SAnswer, History(last, last - 1, last, []));
    Then(x, STARTED, RoundStart(last), a);
    CloseIsReached(x, k, a.h, up);
    Then(x, STARTED, a, Finished(x, up));
  }

  lemma CloseIsReached(x: Setup, k: nat, h: History, up: bool)
    requires h.updates == []
    ensures Reaches(x, At(CCloseHeader(k), SAnswer, h),
                    State(CDone(k), SDone, [], if up then [] else [Answer(GENERIC_ERROR, 0)], h.(updates := [k <= TIMES_TO_SEND])))
  {
    hide Reaches;
    var code := ClosingCode(k);
    var a := At(CCloseHeader(k), SAnswer, h);
    var c := At(CAcceptHeader(k), SAcceptHeader(code), h);
    var e := At(CDone(k), SUpdate(code), h);
    ClosingIsSent(x, k, h);
    ClosingIsAccepted(x, k, h);
    UpdateIsReached(x, k, h, up);
    Then(x, a, c, e);
    Then(x, a, e, State(CDone(k), SDone, [], if up then [] else [Answer(GENERIC_ERROR, 0)], h.(updates := [k <= TIMES_TO_SEND])));
  }

  lemma ClosingIsSent(x: Setup, k: nat, h: History)
    ensures Reaches(x, At(CCloseHeader(k), SAnswer, h), At(CAcceptHeader(k), SAcceptHeader(ClosingCode(k)), h))
  {
    hide Reaches;
    var a, c := At(CCloseHeader(k), SAnswer, h), At(CAcceptHeader(k), SAcceptHeader(ClosingCode(k)), h);
    var b := At(CClose(k), SAnswerName(ClosingCode(k), NAME_FIELD), h);
    Sent(x, a, b);
    Sent(x, b, c);
    Then(x, a, b, c);
  }

  lemma ClosingIsAccepted(x: Setup, k: nat, h: History)
    ensures Reaches(x, At(CAcceptHeader(k), SAcceptHeader(ClosingCode(k)), h), At(CDone(k), SUpdate(ClosingCode(k)), h))
  {
    hide Reaches, ClosingCode;
    var a, c := At(CAcceptHeader(k), SAcceptHeader(ClosingCode(k)), h), At(CDone(k), SUpdate(ClosingCode(k)), h);
    var b := At(CAccept(k, UUID_SIZE), SAccept(ClosingCode(k)), h);
    Answered(x, a, Answer(ACCEPT_MESSAGE, UUID_SIZE), b);
    Answered(x, b, Payload(IdBody), c);
    Then(x, a, b, c);
  }

  lemma UpdateIsReached(x: Setup, k: nat, h: History, up: bool)
    requires h.updates == []
    ensures Reaches(x, At(CDone(k), SUpdate(ClosingCode(k)), h),
                    State(CDone(k), SDone, [], if up then [] else [Answer(GENERIC_ERROR, 0)], h.(updates := [k <= TIMES_TO_SEND])))
  {
    hide Reaches;
    var a := At(CDone(k), SUpdate(ClosingCode(k)), h);
    var h' := h.(updates := [k <= TIMES_TO_SEND]);
    if up {
      Acted(x, a, None, At(CDone(k), SDone, h'));
    } else {
      var b := At(CDone(k), SUpdateError, h');
      Acted(x, a, None, b);
      Acted(x, b, Some(Answer(GENERIC_ERROR, 0)), State(CDone(k), SDone, [], [Answer(GENERIC_ERROR, 0)], h'));
      Then(x, a, b, State(CDone(k), SDone, [], [Answer(GENERIC_ERROR, 0)], h'));
    }
  }

  /** The file of round k cannot be written. */
  function WriteFailed(k: nat): State
    requires k > 0
  {
    At(CError, SFailed, History(k, k - 1, k - 1, []))
  }

  lemma WriteErrorIsReached(x: Setup, k: nat)
    requires ValidSetup(x) && RightTotal(x) && InRound(x, k)
    ensures Reaches(x, STARTED, WriteFailed(k))
  {
    hide Reaches, AnnouncedTotal, PacketCount;
    RoundIsReached(x, k);
    AnnouncedTotalIff(x.n);
    FileGoesOver(x, k, 1, After(k - 1));
    var a := At(CCrcHeader(k), SStore(x.n), History(k, k - 1, k - 1, []));
    var b := a.(s := SStoreError);
    Acted(x, a, None, b);
    Answered(x, b, Answer(GENERIC_ERROR, 0), WriteFailed(k));
    Then(x, STARTED, RoundStart(k), a);
    Then(x, STARTED, a, b);
    Then(x, STARTED, b, WriteFailed(k));
  }

  // ---------- The runs ----------

  lemma RunThrough(x: Setup, b: State, c: State) returns (run: seq<State>, i: nat)
    requires Reaches(x, INITIAL, b) && Reaches(x, b, c)
    ensures IsCleanRun(x, run) && i < |run| && run[i] == b && run[|run| - 1] == c
  {
    hide Step;
    var p :| Steps(x, p) && p[0] == INITIAL && p[|p| - 1] == b;
    var q :| Steps(x, q) && q[0] == b && q[|q| - 1] == c;
    run, i := p + q[1..], |p| - 1;
    forall i | 0 <= i < |run| - 1 ensures Step(x, run[i], run[i + 1]) {
      if i >= |p| - 1 { assert run[i] == q[i - |p| + 1] && run[i + 1] == q[i - |p| + 2]; }
    }
  }

  /** A registration, or a reconnect that falls back to one, and then the rounds as x.agree says. */
  lemma RunWithNewId(x: Setup, reconnect: bool, up: bool) returns (run: seq<State>, i: nat)
    requires ValidSetup(x) && RightTotal(x)
    ensures IsCleanRun(x, run) && i < |run| && run[i].c == CUuid(x.hasInfo) && run[|run| - 1] == Finished(x, up)
  {
    hide Reaches, IsCleanRun, RightTotal, Finished;
    GetsNewId(x);
    NewIdStarts(x, reconnect);
    FinishIsReached(x, up);
    Then(x, NewId(x), STARTED, Finished(x, up));
    run, i := RunThrough(x, NewId(x), Finished(x, up));
  }

  /** A reconnect that is granted, with either code. */
  lemma RunOfGrant(x: Setup, code: Uint16, up: bool) returns (run: seq<State>, i: nat)
    requires ValidSetup(x) && RightTotal(x) && x.hasInfo && (code == SEND_AES || code == SUCCESSFUL_RECONNECT)
    ensures IsCleanRun(x, run) && i < |run| && run[i].c == CAnswer && run[i].s == SAesHeader(code) && run[|run| - 1] == Finished(x, up)
  {
    hide Reaches, IsCleanRun, RightTotal, Finished;
    GrantIsReached(x, code);
    GetsAes(x, false, code);
    FinishIsReached(x, up);
    Then(x, Welcome(x, false, code), STARTED, Finished(x, up));
    run, i := RunThrough(x, Welcome(x, false, code), Finished(x, up));
  }

  lemma RunOfRefusal(x: Setup) returns (run: seq<State>)
    ensures IsCleanRun(x, run) && run[|run| - 1] == REFUSED
  {
    hide Reaches, IsCleanRun;
    RefusalIsReached(x);
    Stays(x, REFUSED);
    var i;
    run, i := RunThrough(x, REFUSED, REFUSED);
  }

  lemma RunOfRowError(x: Setup) returns (run: seq<State>)
    requires !x.hasInfo
    ensures IsCleanRun(x, run) && run[|run| - 1] == RowFailed(x)
  {
    hide Reaches, IsCleanRun;
    GetsNewId(x);
    RowErrorIsReached(x);
    var i;
    run, i := RunThrough(x, NewId(x), RowFailed(x));
  }

  /** In every round that the rounds before it leave open the file may turn out not to be writable. */
  lemma RunOfWriteError(x: Setup, k: nat) returns (run: seq<State>)
    requires ValidSetup(x) && RightTotal(x) && InRound(x, k)
    ensures IsCleanRun(x, run) && run[|run| - 1] == WriteFailed(k)
  {
    hide Reaches, IsCleanRun, RightTotal;
    GetsNewId(x);
    NewIdStarts(x, true);
    WriteErrorIsReached(x, k);
    Then(x, NewId(x), STARTED, WriteFailed(k));
    var i;
    run, i := RunThrough(x, NewId(x), WriteFailed(k));
  }

  // ---------- With a wrong total ----------

  /** A client that goes on sending to a server that is gone. */
  lemma {:induction false} SendsTheRest(x: Setup, i: nat, up: seq<Msg>) returns (up': seq<Msg>)
    requires 1 <= i <= PacketCount(x.n)
    ensures Reaches(x, State(CFileHeader(1, i), SFailed, up, [], NOTHING), State(CCrcHeader(1), SFailed, up', [], History(1, 0, 0, [])))
    decreases PacketCount(x.n) - i
  {
    hide Reaches, AnnouncedTotal, PacketCount;
    var m, n := Request(SEND_FILE, FIXED + C), Payload(FileBody(i, AnnouncedTotal(x.n)));
    var a := State(CFileHeader(1, i), SFailed, up, [], NOTHING);
    var b := a.(c := CFile(1, i), up := up + [m]);
    var c := if i < PacketCount(x.n) then b.(c := CFileHeader(1, i + 1), up := up + [m] + [n])
             else b.(c := CCrcHeader(1), up := up + [m] + [n], h := History(1, 0, 0, []));
    assert ClientSendStep(x, a, b) && ClientSendStep(x, b, c);
    OneStep(x, a, b);
    OneStep(x, b, c);
    Then(x, a, b, c);
    up' := c.up;
    if i < PacketCount(x.n) {
      up' := SendsTheRest(x, i + 1, c.up);
      Then(x, a, c, State(CCrcHeader(1), SFailed, up', [], History(1, 0, 0, [])));
    }
  }

  lemma {:induction false} ServerGivesUp(x: Setup, i: nat)
    requires ValidSetup(x) && !RightTotal(x) && 1 <= i <= AnnouncedTotal(x.n)
    ensures AnnouncedTotal(x.n) < PacketCount(x.n)
    ensures Reaches(x, AtPacket(1, i, NOTHING), State(CFileHeader(1, AnnouncedTotal(x.n) + 1), SFailed, [], [], NOTHING))
    decreases AnnouncedTotal(x.n) - i
  {
    hide Reaches, AnnouncedTotal, PacketCount, ServerReads;
    AnnouncedTotalIff(x.n);
    var total := AnnouncedTotal(x.n);
    var end := State(CFileHeader(1, total + 1), SFailed, [], [], NOTHING);
    PacketGoesOver(x, 1, i, NOTHING);
    FileArrives(x, (i - 1) * C, FIXED + C, i);
    var next := At(CFileHeader(1, i + 1), ServerReads(x, SFile((i - 1) * C, FIXED + C), Payload(FileBody(i, total))).value, NOTHING);
    if i == total {
      assert DecryptionFails(next, end);
      OneStep(x, next, end);
    } else {
      ServerGivesUp(x, i + 1);
    }
    Then(x, AtPacket(1, i, NOTHING), next, end);
  }

  /** The client sends its whole file and then finds the stream closed. */
  lemma RunOfWrongTotal(x: Setup) returns (run: seq<State>)
    requires ValidSetup(x) && !RightTotal(x)
    ensures IsCleanRun(x, run)
    ensures var a := run[|run| - 1]; a.c == CFailed && a.s == SFailed && a.down == [] && a.h == History(1, 0, 0, [])
  {
    hide Reaches, IsCleanRun, AnnouncedTotal, PacketCount;
    AnnouncedTotalIff(x.n);
    GetsNewId(x);
    NewIdStarts(x, true);
    ServerGivesUp(x, 1);
    var up := SendsTheRest(x, AnnouncedTotal(x.n) + 1, []);
    var a := State(CFileHeader(1, AnnouncedTotal(x.n) + 1), SFailed, [], [], NOTHING);
    var b := State(CCrcHeader(1), SFailed, up, [], History(1, 0, 0, []));
    var c := b.(c := CFailed);
    assert ClientEofStep(x, b, c);
    OneStep(x, b, c);
    Then(x, NewId(x), STARTED, a);
    Then(x, NewId(x), a, b);
    Then(x, NewId(x), b, c);
    var i;
    run, i := RunThrough(x, NewId(x), c);
  }
}
