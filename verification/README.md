# Encrypted File Transfer System: a verified model

The system is a C++ client that encrypts a file and sends it in packets, and a Python server that
decrypts it, stores it, and records it in a database. Both sides compute the checksum of the POSIX
`cksum` utility (Shell and Utilities, section 4 of POSIX.1-2017, IEEE Std 1003.1-2017); the client
compares the two and sends again, up to four times, until they agree.

`dafny verify dfyconfig.toml` checks everything.

## What is here

| file | what it models |
|---|---|
| `Gf2.dfy` | polynomials over GF(2) as natural numbers; long division by the generator of `cksum` |
| `CrcTable.dfy` | the 256 table entries of both programs, each proved to be the remainder it should be |
| `Cksum.dfy` | both `memcrc` programs, proved against the standard's definition; which changes the checksum detects |
| `Bytes.dfy`, `Options.dfy` | bytes, little-endian fields, zero-filled fields |
| `Text.dfy`, `Names.dfy` | the checksum line, hexadecimal ids, file and client names in 255-byte fields |
| `Cipher.dfy` | PKCS #7 padding around a block mode of which only length and invertibility are assumed |
| `Packets.dfy` | the number of packets, the size guards, splitting and reassembly |
| `Wire.dfy`, `Connection.dfy` | the packed structures, `struct.unpack`, and a socket that fragments as it likes |
| `ServerTransfer.dfy`, `ClientTransfer.dfy` | both sides of a file transfer, as programs over a socket and as functions of the bytes that arrive |
| `EndToEnd.dfy` | those two functions composed: whole runs, with and without damage on the way |
| `Session.dfy`, `SessionRuns.dfy` | the whole session as two state machines and two FIFO channels: what holds in every run, and which runs there are |
| `Registry.dfy`, `ServerState.dfy` | the list of clients and the two tables, over runs of sessions and restarts |
| `TableNames.dfy` | the text under which the table of files knows a file |
| `ServerStart.dfy`, `ClientStart.dfy`, `Agreement.dfy` | both sides of the handshake, composed with each other and with the transfer |

Bit operations on non-negative numbers are written as arithmetic where they are powers of two
(`s >> 24` as division by 0x1000000, `s & 0xffffffff` as a remainder) and as `Xor` on natural numbers
otherwise. A program that loops is a method, proved against a function of its input; the theorems
are about those functions. Where the sources raise an exception or exit, the functions say so in
their results.

## What was found

- The client announces `n / 65270 + 1` packets but sends `ceil(n / 65269)`. The two agree exactly when
  the last packet holds at least `ceil(n / 65269) - 1` bytes; 195808 is the smallest ciphertext for
  which they do not. Such a file can never be transferred: the server stops reading too early, the
  length it has is not a multiple of 16, and it neither stores, records nor answers anything.
- A base name may have 254 bytes, although the message of the client says "less than 256". A client
  name may have 255, and one that does loses its last byte on the server, so that two such names
  collide.
- A reconnect that falls back to a registration puts the client in the list but not in the table, so
  that a restart of the server forgets it.
- After that fallback the server lists the client under the name of me.info, while the client has
  written the name of transfer.info into me.info. If the two differ, the next reconnect fails too.
- The table of files holds `str` of a bytes object and a NUL, `b'name'` and so on. After a restart
  the list of a client therefore holds such texts instead of the names it was given, and also those of
  files that were never verified.
- When a registration cannot be written to the database, the server reports the error and then sends
  the AES key and waits for a file all the same, while the client has stopped at the error.
- The test `client.key is not None` of a reconnect is always true, since the key of a client starts
  as the empty string; and `client_id != client.uuid` compares bytes with a UUID and is always true
  as well, which is what refuses a known name with another id.

## Model

| member | source | states |
|---|---|---|
| Gf2.RemainderIsRem | Client/cksum_new.cpp:447-457 | bit-at-a-time long division yields the remainder by the generator polynomial, and it is the only value of degree below 32 that differs from the dividend by a multiple of the generator |
| CrcTable.TableCorrect | Server/cksum.py:9-60 | every one of the 256 table entries is the remainder of its index times x^32 |
| Cksum.Feed | Server/cksum.py:68-70 | one table step takes the register of a message to the register of the message with one more byte, and never indexes outside the table |
| Cksum.MemcrcPython | Server/cksum.py:65-76 | the server's program on unbounded integers returns the POSIX checksum of every byte string |
| Cksum.MemcrcCpp | Client/cksum_new.cpp:442-459 | the client's program, with an unsigned long of 32 or of 64 bits that wraps, returns the same POSIX checksum |
| Cksum.LengthOctetsAreDigits | Client/cksum_new.cpp:452-456 | the octets fed in after the message are the base-256 digits of its length, least significant first, without a leading zero |
| Cksum.CrcIsTheRemainder | Server/cksum.py:65-76 | the complement of the checksum is the remainder, and the only one, of message and length octets times x^32 by the generator |
| Cksum.CollisionIff | Client/cksum_new.cpp:442-459 | two messages of equal length have the same checksum exactly when the generator divides their difference |
| Cksum.BurstDetected | Client/cksum_new.cpp:447-457 | two different messages of equal length that agree outside some window of 32 bits have different checksums, at every offset and length |
| Cksum.BurstOf33Iff | Client/cksum_new.cpp:447-457 | of the bursts of 33 bits the only undetected pattern is the generator itself |
| Cksum.CrcIsAffine | Server/cksum.py:65-76 | the checksum of the exclusive or of three messages of equal length is the exclusive or of their checksums |
| Text.GetNumbers | Client/funcs.cpp:74-87 | returns the first maximal run of digits, or nothing when there is no digit |
| Text.ChecksumLineRoundTrip | Client/cksum_new.cpp:472 | from the printed line the client's first digit run and the server's first field both give back the checksum, for every checksum, size and name |
| Text.ChecksumLineFields | Client/cksum_new.cpp:472 | the line is the checksum, the size and the name, in this order and with a tab between each two |
| Text.PrintId | Client/structs.cpp:18-24 | the printing loop yields two lower-case hexadecimal digits for every byte of the id |
| Text.FillId | Client/funcs.cpp:269-272 | the parsing loop fills the array with the parsed pairs, or fails just when substr or stoi throws |
| Text.HexRoundTrip | Client/funcs.cpp:251-272 | parsing a printed id gives back the id |
| Text.HexIsLowerCase | Client/structs.cpp:18-24 | the characters printed for a byte are its upper and its lower half, as digits and lower-case letters |
| Text.HexInjective | Server/server.py:99 | comparing printed ids is comparing ids |
| Names.BaseNameIsTheLastComponent | Client/funcs.cpp:197-198 | the name sent is what follows the last slash or backslash of the path, also when there is none |
| Names.BaseNameOf | Client/funcs.cpp:197-198 | behind any directory, set off by a slash or by a backslash, a name without either is sent as it is, and so is a bare name |
| Names.LegalIff | Client/client.cpp:43-55 | the length test with its unsigned wrap accepts exactly client names of up to 255 and base names of up to 254 bytes |
| Names.FieldRoundTripIff | Server/funcs.py:154-160 | cutting a zero-filled field at its first NUL gives back the name exactly when the name has no NUL and does not fill the field |
| Names.FileNameArrives | Server/funcs.py:154-160 | of every accepted path the server recovers the base name, exactly when that has no NUL |
| Names.ClientNameArrivesIff | Server/server.py:43-44 | an accepted client name arrives exactly when it has no NUL and is not 255 bytes long |
| Names.LongNamesCollide | Server/server.py:43-44 | two accepted names of 255 bytes that differ in the last byte are one name to the server |
| Cipher.DecryptUndoesEncrypt | Server/funcs.py:104-105 | a ciphertext is a whole number of blocks, one more than the text fills, and decrypting and unpadding gives back the text |
| Cipher.DecryptIff | Server/funcs.py:104-105 | a message is decrypted to a text exactly when it is made of whole blocks and the block mode takes it to that text with its padding |
| Packets.AnnouncedTotalIff | Client/funcs.cpp:184 | the announced number of packets is at least 1, never too large, and right exactly when the last packet holds enough bytes |
| Packets.Shortfall | Client/funcs.cpp:184 | it is short by at most one below 2^31 bytes, and by at most two in all that the guards accept |
| Packets.SmallestWrongTotal | Client/funcs.cpp:184 | it is right for all multiples of 16 up to 195792 and wrong for 195808 |
| Packets.GuardsIff | Client/funcs.cpp:182-195 | below 2^31 * 65270 bytes the two guards accept exactly what fits into 65535 packets, and then neither the size nor the count is cut off |
| Packets.GuardsBoundIsSharp | Client/funcs.cpp:182-195 | a ciphertext of 2^31 * 65270 bytes passes both guards although it does not fit |
| Packets.SecondGuardIsNeeded | Client/funcs.cpp:186-194 | 2^32 bytes pass the first guard as size 0 and are stopped by the second |
| Packets.AssembleFrom | Server/funcs.py:206-222 | with a total of t up to the packet count the server puts together a prefix of the ciphertext and leaves the other packets unread; with any other total it never stops by itself |
| Packets.ReassemblyIff | Server/funcs.py:206-222 | the server recovers the ciphertext and reads every packet exactly when the announced total is the packet count |
| Packets.ShortTotal | Server/funcs.py:216-220 | with up to 15 packets missing the length put together is not a multiple of 16 |
| Wire.HeaderRoundTrip | Server/funcs.py:71-76 | unpacking the 23 bytes of a client header gives back its four fields |
| Wire.ReplyRoundTrip | Server/funcs.py:125-129 | reading the 7 bytes of a server header gives back its three fields |
| Wire.PacketRoundTrip | Server/funcs.py:211-213 | unpacking a file packet gives back its six fields |
| Wire.CrcMessageRoundTrip | Server/funcs.py:168-175 | the client's structure over the 279 bytes of an answer holds the four fields the server packed |
| Wire.HeaderLayout | Client/structs.cpp:3-11 | the 23 bytes are the id, version 3, and code and size with the least significant byte first |
| Wire.ReplyLayout | Server/funcs.py:125-129 | the 7 bytes are the version, and code and size with the least significant byte first |
| Wire.PacketLayout | Server/funcs.py:211-213 | the fields of a packet are the size after encryption, the one before, its number, the total, the name and the message, in this order |
| Wire.CrcMessageLayout | Server/funcs.py:168-175 | the fields of an answer are the id, the size, the name and the checksum, in this order |
| Wire.SendHeader.constructor | Client/structs.cpp:3-11 | filling the array in a loop makes the bytes of a header with version 3 |
| Wire.FilePacket.constructor | Client/structs.cpp:71-83 | filling the two arrays in loops makes the bytes of a packet with zero-filled name and message |
| Wire.KeyPacket.constructor | Client/structs.cpp:94-105 | filling the two arrays in loops makes a zero-filled name and a zero-filled key |
| Connection.ReceiveData | Server/funcs.py:51-58 | however recv cuts up the stream, exactly the next size bytes are returned and consumed, or the stream is reported broken when it has fewer |
| ServerTransfer.ReceiveMessage | Server/funcs.py:209-212 | reads a header and just the payload it announces |
| ServerTransfer.ReceiveFile | Server/funcs.py:207-222 | the packet loop computes ReadFile of the bytes that arrive and leaves the rest of the stream |
| ServerTransfer.FileSession.CreateFile | Server/funcs.py:103-121 | decryption comes before the file is opened; a file is stored just when both succeed, and an error is sent just when only the second fails |
| ServerTransfer.FileSession.SendPacket | Server/funcs.py:164-175 | the number sent is the checksum, although it goes through the text of the line |
| ServerTransfer.FileSession.CloseTransfer | Server/funcs.py:185-199 | accepts, appends a right file to the client's list, updates the tables once with the flag, and reports an error of the database |
| ServerTransfer.FileSession.GetAnswer | Server/funcs.py:179-200 | on a closing message accepts and records the transfer in list and tables; on any other message, or none, changes nothing there |
| ServerTransfer.FileSession.GetFile | Server/funcs.py:204-229 | the two nested loops send, store, record in list and tables, and end as Serve says of the bytes that arrive, and leave what Serve leaves |
| ClientTransfer.CounterWraps | Client/funcs.cpp:95 | the int counter, compared as a size_t, runs through exactly the multiples of the packet size below a length under 2^31, even where it wraps at the end |
| ClientTransfer.Sender.SendChunks | Client/funcs.cpp:93-102 | the packet loop sends exactly the packets of the ciphertext, each behind its header |
| ClientTransfer.Sender.SendThePackets | Client/funcs.cpp:89-138 | the retry loop sends, returns and consumes what SendRounds says of the bytes that arrive |
| ClientTransfer.Sender.Finish | Client/funcs.cpp:140-171 | closes with 1029 or 1031 by the counter, reads of the answer at most an id, and succeeds when that is no error and the counter is at most 4 |
| ClientTransfer.RetryFrom | Client/funcs.cpp:89-138 | a counter k up to 4 means that answer k is the first with the client's checksum, 5 that none of four is; there were min(k, 4) transmissions with a request to send again between each two |
| EndToEnd.TakeFramed | Server/funcs.py:71-76 | a header and payload the client wrote are read back as they were, and what follows is left |
| EndToEnd.ReadFrames | Server/funcs.py:207-222 | reading the bytes of a sequence of packets yields what Assemble makes of the packets |
| EndToEnd.ReadTransmission | Server/funcs.py:207-222 | a transmission with the right total is read as the ciphertext, the file name and the client's id, and nothing of it is left |
| EndToEnd.ReadShortTransmission | Server/funcs.py:207-222 | a transmission with too small a total is read as a part that is not a whole number of blocks |
| EndToEnd.EveryPacketSays | Client/funcs.cpp:95-101 | read one after the other, the messages of a transmission are 1028 with the fields and the part of the ciphertext they should have, and there are no others |
| EndToEnd.RoundsSay | Client/funcs.cpp:122-131 | between two transmissions there is just one message, 1030 with the name |
| EndToEnd.RoundIsAnswered | Server/funcs.py:164-200 | for any bytes that arrive, the answer to a stored round is 1603 with the id of the client, the length of what was put together, the name received and the checksum of what was stored; after it comes 1604 with the id, or the next round |
| EndToEnd.RoundEndsSession | Server/funcs.py:103-121 | any other round ends the session: unanswered if the stream breaks off or does not decrypt, with an error if the file cannot be written |
| EndToEnd.WholeRun | Server/funcs.py:204-229 | over a channel that may damage packets, the two loops agree: as many rounds on both sides, the closing code by the last comparison, every delivery stored, one update with the right flag, and nothing left unread |
| EndToEnd.SendFileAgrees | Client/funcs.cpp:201-202 | so sendFile as a whole sends min(k, 4) transmissions and one closing message, succeeds just when the last delivery was right, and leaves nothing unread unless the database failed |
| EndToEnd.SendFile | Client/funcs.cpp:173-202 | sends, returns and consumes what SendFileRun says, comparing the checksum that was printed and parsed; sends and reads nothing when a guard refuses |
| EndToEnd.RefusedIff | Client/funcs.cpp:186-194 | sendFile refuses exactly the files of more than 65535 packets, for ciphertexts below 2^31 * 65270 bytes |
| EndToEnd.FileArrives | Client/funcs.cpp:173-202 | when the last packet is full enough, one round stores exactly the client's file and records it as verified, and the client returns after one transmission and 1029; the server's answers name the client, the size, the name and the checksum, and then its id; both sides have read everything |
| EndToEnd.FileIsSentAsPackets | Client/funcs.cpp:180-201 | what is sent are as many packets as the ciphertext needs, each with the sizes after and before encryption, its number, the total, the base name and its part of the ciphertext, and then one closing message |
| EndToEnd.ShortFileIsNeverStored | Server/funcs.py:103-105 | when it is not, the server stores, records and answers nothing, whatever follows |
| EndToEnd.DamageIsNeverAcknowledged | Client/funcs.cpp:117-134 | in every run, a round whose stored file differs from the client's within 32 neighbouring bits is followed by a request to send again on both sides, or is the fourth, which the client closes with 1031 and the server records as not verified |
| EndToEnd.ServeAlways | Server/funcs.py:204-229 | whatever bytes arrive, a session that finishes has stored a file and recorded one transfer, one that does not has recorded none, and every stored file is the decryption of something in a round that could be written |
| EndToEnd.WriteErrorStopsBoth | Server/funcs.py:112-121 | a file that cannot be written is reported with 1607, nothing is stored or recorded, and the client stops after its transmission, whatever follows in the stream |
| Session.NextKeepsInv | Client/funcs.cpp:351-429 | every step and every abort of either side keeps the invariant that all messages on their way are expected and leave the two sides in step |
| Session.LockStep | Server/server.py:35-87 | in every state of every run the next message for a waiting side has the kind, code and size it expects |
| Session.BytesInStep | Server/funcs.py:51-58 | so on the byte streams each side reads exactly one message at a time |
| Session.NoDeadlock | Client/funcs.cpp:326-421 | the two sides never wait for each other, and until both have ended one of them has a step |
| Session.RunsAreBounded | Client/funcs.cpp:89-138 | every run, with any aborts, has at most 157 + 88 * packets states |
| Session.RetryProtocol | Server/funcs.py:179-229 | a client through with k has made min(k, 4) transmissions and one request fewer, the server has stored as often, and k is the first round that agreed or 5; in every run the server updates at most once, as verified exactly when some round agreed |
| Session.UpdatesAreJustified | Server/funcs.py:185-199 | in every state of every run, whatever has broken off: an update that says verified means that a round agreed, one that says not verified that none did, and the transmissions, requests and stored files are then exactly those of all rounds up to the deciding one |
| Session.NextSettles | Client/funcs.cpp:140-151 | every step and every abort keeps that each closing code under way, in the hands of the server, or in the database is justified by the rounds |
| Session.WrongTotalStoresNothing | Server/funcs.py:103-105 | with a wrong announced total no run stores a file or updates the database |
| Session.CleanRunEnds | Client/funcs.cpp:370-416 | a finished run without exceptions and with the right total ends done on both sides, refused on both sides, or with the client told of an error |
| SessionRuns.RunWithNewId | Server/server.py:64-87 | for every length with the right total and every way the checksums can agree, there is a run through a registration, or through a reconnect that falls back to one, that ends done on both sides after just the rounds it takes, with one update that says how they went |
| SessionRuns.RunOfGrant | Server/server.py:47-57 | the same for a reconnect that is granted, with either code |
| SessionRuns.RunOfRefusal | Server/server.py:59-75 | there is a run that ends refused on both sides, for a registration and for a reconnect |
| SessionRuns.RunOfRowError | Server/server.py:82-85 | there is a run in which the row cannot be inserted: the client stops at the error, the AES key is left unread, and the server fails |
| SessionRuns.RunOfWriteError | Server/funcs.py:112-121 | in every round that the ones before it leave open there is a run in which the file cannot be written, and both sides stop there |
| SessionRuns.RunOfWrongTotal | Server/funcs.py:103-105 | with a wrong total there is a run in which the client sends its whole file once and then finds the stream closed |
| Registry.NextKeepsConsistent | Server/server.py:64-83 | every operation of a session, and a restart, keeps names and ids pairwise distinct and every row in the list with the same name and key |
| Registry.AlwaysConsistent | Server/server.py:93-124 | so in every state of every run of any number of sessions, which may break off anywhere |
| Registry.RowsArePermanent | Server/database.py:69-107 | a row, once inserted, keeps its name and key through everything, restarts included |
| Registry.RowsAreInsertions | Server/database.py:69-83 | in every run, a row with this name, id and key is in the table exactly when it was once inserted with success |
| Registry.OnlyRegistrationsGetRows | Server/server.py:79-85 | in every run, such a row is there exactly when a registration under its name and id was accepted, then its key came under that id, and then the insertion succeeded |
| Registry.FallbackNeverGetsRow | Server/server.py:106-113 | an id given out in a fallback, and to no accepted registration, has no row in any run |
| Registry.RecordChanges | Server/funcs.py:189-196 | the end of a transfer appends the path to the list of this one client when it is verified, whether or not the tables can be written, and leaves all lists alone when it is not; it changes the tables only if they can be written |
| Registry.ListsHoldVerifiedFiles | Server/funcs.py:189-196 | in every run, the names a client's list has from transfers are exactly those of the verified ones under its id since the last restart, in order |
| Registry.FilesAreTheLastRecords | Server/database.py:86-107 | in every run, a file of a client is in the table, under its text, exactly when an update of it has succeeded, and with the flag of the last such update |
| Registry.RowsHoldTheLastAes | Server/database.py:98-99 | in every run, a row holds the AES key of the last successful update it was there for, and none before the first |
| Registry.EveryFileWasRecorded | Server/database.py:100-101 | and nothing else is in that table |
| Registry.RestartListsAllFiles | Server/database.py:57-60 | after a restart the list of a client holds the texts of exactly the files with a successful update, verified or not |
| TableNames.TableNameInjective | Server/database.py:91-92 | the text of a path determines the path, for all bytes, with the quotes and escapes of a printed bytes object |
| TableNames.TableNameIsLiteral | Server/database.py:91-92 | read as a literal of the language, the text is the path again, and its quotes are double ones just when the path has single ones and no double one |
| TableNames.PlainTableName | Server/database.py:91-92 | a printable path without quotes and backslashes is in the text as it is, between single quotes |
| TableNames.OtherBytes | Server/database.py:91-92 | every other byte has the one escape, or none, that str gives it |
| Registry.OutcomeIsUnique | Server/server.py:96-105 | a reconnect is granted to one client, refused, or renewed, and exactly one of these |
| Registry.RestartRemembersRows | Server/database.py:38-64 | after a restart exactly the names with a row are taken, and those clients can reconnect |
| Registry.SurvivorsRegistered | Server/database.py:38-64 | so the clients after a restart are exactly those whose registration was accepted, whose key came, and whose insertion succeeded before it |
| Registry.FallbackIsForgotten | Server/server.py:106-113 | a client that came in through the fallback is forgotten by a restart and its name can be registered by another |
| ServerState.Server.NameIsFree | Server/server.py:66-70 | the flag says whether no client in the list has the name |
| ServerState.Server.FindForReconnect | Server/server.py:94-105 | returns the client of that name and id, or none when there is none, and a flag that says whether the name is taken at all |
| ServerState.Server.CreateUuid | Server/server.py:116-121 | appends a client with the new id and an empty key, and nothing else changes |
| ServerState.Server.RegisterClient | Server/server.py:64-79 | appends the client just when the name is new |
| ServerState.Server.KeyArrives | Server/server.py:80-81 | stores the key of this client, and clears self.reconnect just after a fallback |
| ServerState.Server.AddClientToDb | Server/database.py:69-83 | inserts the row of this client, or reports that it could not |
| ServerState.Server.UpdateClientsAndFiles | Server/database.py:86-107 | updates the row if there is one and replaces the file's row, under the text of its path, or does neither |
| ServerState.Server.RecordTransfer | Server/funcs.py:189-196 | a verified file joins the client's list, and the tables are updated with the flag |
| ServerState.Server.GetDataFromDb | Server/database.py:38-64 | makes one new client for each row, with its name and key, and with the texts that the table of files has for its id |
| ServerState.Server.Restart | Server/server.py:21-24 | the list becomes that of the tables, and all is still consistent |
| ServerStart.ServerThread.CreateAes | Server/funcs.py:133-139 | sends the id and the encrypted key behind a header with their size |
| ServerStart.ServerThread.GetKey | Server/funcs.py:143-150 | reads the key of a payload of 415 bytes, and raises on any other size |
| ServerStart.ServerThread.SignUpClient | Server/server.py:79-85 | sends the new id, stores the key, inserts the row of a registration, and reports a database error before it sends the AES key all the same |
| ServerStart.ServerThread.SignInNew | Server/server.py:64-85 | the branch of a registration refuses a known name with 1601, and otherwise adds the client and signs it up |
| ServerStart.ServerThread.SignInAgain | Server/server.py:47-62 | the branch of a reconnect grants with 1605 or 1602 by self.reconnect, refuses with 1601, or falls back, as the list says |
| ServerStart.ServerThread.SignIn | Server/server.py:35-85 | registers, reconnects, falls back or refuses as Greet says of the store and the bytes that arrive |
| ServerStart.ServerThread.StartServing | Server/server.py:35-87 | a whole session, from the first header to the last answer, does to the list, the tables, the files and the stream what Session says of the store and the bytes that arrive |
| ServerStart.SessionIsLater | Server/server.py:35-87 | whatever bytes arrive, a session does to list and tables what some operations of Registry do one after the other, so that what holds in all its runs holds for any number of sessions |
| ClientStart.ClientSession.SendKey | Client/funcs.cpp:249-277 | the id printed and parsed back goes out with the public key |
| ClientStart.ClientSession.FinishStart | Client/funcs.cpp:373-403 | handles refusal, error, fallback and success of the first answer, and reads the AES key of the size announced |
| ClientStart.ClientSession.StartClient | Client/funcs.cpp:351-403 | starts with a registration or a reconnect and goes on as Begin says of the bytes that arrive |
| Agreement.TakeKeyMessage | Client/funcs.cpp:275-277 | what the server reads is 1026 under the new id, with the client's name and its key |
| Agreement.MessageSizes | Client/structs.cpp:3-129 | every message of the state machines has the size that its bytes have |
| Agreement.RegistrationAgrees | Client/funcs.cpp:326-349 | a registration under a new name gives both sides the same id and AES key, and the server the client's name and key in list and table; the server says 1600, the id, 1602, the id and the key, and nothing is left over on either stream |
| Agreement.DatabaseErrorDisagrees | Server/server.py:82-85 | when the row of a registration cannot be inserted, the server says 1607 between the id and 1602; the client stops at it and the server goes on to wait for a file, with the name taken in the list and no row |
| Agreement.ReconnectAgrees | Server/server.py:47-57 | a reconnect of a known client is granted with its own key and leaves the store unchanged; all the server says is 1605 or, once self.reconnect is false, 1602, with the id and the key |
| Agreement.FallbackAgrees | Server/server.py:106-113 | a reconnect under an unknown name is told 1606, gives both sides a new id, and adds to the list but not to the table |
| Agreement.ReconnectAfterFallback | Client/funcs.cpp:264 | the next reconnect after a fallback is granted exactly when transfer.info and me.info had the same name, is refused when another client has the former, and falls back again when none has |
| Agreement.RefusalAgrees | Server/server.py:59-75 | a known name is refused to a registration and to a reconnect with another id: all the server says is 1601, its store does not change, and the client stops whatever follows in the stream |
| Agreement.FirstSession | Client/funcs.cpp:351-421 | a whole session: a new client registers and sends a file whose last packet is full enough; the server stores exactly the file, its list and tables hold the client and the file as verified and are consistent, the client sends just the bytes the server read, and nothing is left unread on either side |
| Agreement.AlwaysWelcomeBack | Server/server.py:47-57 | a client with a row is granted its own id under its own key after any sessions and restarts |
| Agreement.LaterSession | Server/server.py:35-87 | and a file it then sends is stored exactly, recorded under its id as verified, and acknowledged, with nothing left unread |
| Agreement.SessionOverChannel | Server/funcs.py:179-229 | a whole session over a channel that may damage packets: a file that is right in the end joins the client's list and the table as verified; one that is given up leaves the list as it was at the start and is in the table as not verified; both streams are read to their ends |
| Agreement.SecondSession | Client/funcs.cpp:283-324 | what the first session leaves in me.info is enough for that: with it the client reconnects in any later state |

## Left out

- AES, RSA, OAEP, Base64 and key generation: a block mode is any pair of functions that keeps the length of whole blocks and inverts it; encrypting the AES key is any partial function of the public key.
- `crctab[1]` to `crctab[7]`: `memcrc` never reads them.
- Cksum.MemcrcCpp: buffers of 2^31 bytes and more, where the int counter of the client overflows; the same bound holds for ciphertexts in ClientTransfer.
- ClientTransfer.CounterWraps: overflow of the int counter after the last packet is undefined in C++; it is modelled as wrapping.
- ClientTransfer.Sender.SendThePackets: an answer that announces a payload of more than 279 bytes ends the model of the client; the client would read it beyond its structure.
- EndToEnd.SendFile: the checksum line of a file of 2^31 bytes or more, over which the int counter of `memcrc` overflows, is any string; the guards refuse such a file, or it is outside the claim.
- ClientStart.ClientSession.FinishStart: an AES message of fewer than 16 bytes ends the model of the client; the client would form an invalid range.
- The client's `read_some` calls are taken as full reads of the size asked for.
- A write to a connection whose other side is gone succeeds in the model; the error it may raise is one of the aborts that can happen anywhere in Session.
- Decoding of names as UTF-8: names are bytes, and the exception on bytes that are not UTF-8 is one of the aborts in Session.
- Threads that interleave between the name check and the append: each connection has a lock of its own, so the claims of Registry are for check and append in one step.
- Time stamps, the column PathName, the text of SQL statements, `transfer.info`, `port.info`, `priv.key`, console output, and exit codes. Of `me.info` the model has the name and the id.
- The order in which the database returns rows: any order is allowed.
