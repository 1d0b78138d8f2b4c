# QChat: a verified model

QChat is a peer-to-peer messenger. Its clients exchange text, keys and files in 512-byte UDP packets, find each
other through a coordinating TCP server, and show everything in a local web page. This project models those
parts in Dafny and proves what they promise over all inputs and all runs.

| file | models |
|---|---|
| `Basics.dfy`, `Bytes.dfy`, `Crypto.dfy` | numbers and finite sets, bytes, big-endian numbers, the cipher as a parameter with two stated laws |
| `Crc32.dfy`, `Packet.dfy` | the packet checksum, the packet layout, encrypted payloads, text messages |
| `Sender.dfy`, `Receiver.dfy`, `FileNames.dfy`, `Transfer.dfy` | the two halves of `udp_server`, chunked file transfer, the choice of file name, and whole runs over a network that loses, repeats, reorders and corrupts |
| `KeyExchange.dfy` | the agreement on a shared AES key |
| `Wire.dfy`, `Server.dfy`, `Rendezvous.dfy` | the routine request and its answer, the session table, and runs of check-ins and sweeps |
| `CoordinationClient.dfy`, `Lockstep.dfy`, `Coordination.dfy` | the client's callback machine, the server's connection object, both joined by byte streams, and the whole of client, server and other clients with the contents of every frame |
| `Levenshtein.dfy` | the edit-distance matrix and the message filter |
| `TextReplace.dfy`, `JsonText.dfy`, `MessageLog.dfy`, `HttpRequest.dfy` | placeholder replacement, JSON escaping, the message log, and the gathering of a request from pieces |

Code that changes state is a class or a method with loops; each such method equates the new state with a
function of the old one, and the lemmas are about those functions. `Lawful` and `WrapLawful` are the only
hypotheses about cryptography: decryption undoes encryption, and the ciphertext has the length of an
initialisation vector plus padded blocks (section 6.3 of RFC 5652). `Crypto.LawfulExists` and
`KeyExchange.WrapLawfulExists` show that they can be met.

Where the code and its documentation differ, the model follows the code:

- `development/Luka/_packets_template.txt:9-12` reserves quantity 0 for single-packet messages. The code sends a
  header packet (quantity 1) before every file, even one of a single chunk, and marks the last chunk with 0.
- The comment at `app_final/client/main.cpp:1216` expects every cut text to encrypt to at most 493 bytes. A text of
  464 to 477 bytes encrypts to 496 and is dropped by the receiver (`Packet.TextDelivery`).
- An empty file announces zero chunks and still sends one, so it is never written (`Transfer.EveryWriteIsIntact`).
- All transfers to a peer share one timer. A second transfer started while the timer runs for the first ends the
  first (`Sender.SecondTransferPreempts`); started after the first one's wait has expired, with more than one chunk to
  go, it is ended itself by the late handler (`Sender.LateHandlerPreempts`). `Sender.TransferIsSentIff` says exactly
  when a transfer is sent whole.
- A client with more than 100 busy ports or 32 wanted peers is refused at every check-in (`Wire.RequestTakenIff`).
- Two key offers that cross leave the peers with different keys (`KeyExchange.CrossingOffersDisagree`). In general
  the peers agree if and only if no answer is on its way to the peer that takes the last offer
  (`KeyExchange.StoredKeysAgreeIff`).
- A request without a body length whose body arrives later is acted on without it
  (`HttpRequest.SegmentationDoesNotMatterIff`).
- A logged text with a newline is not read back (`MessageLog.LogFaithfulIffOneLine`).

## Model

| member | source | states |
|---|---|---|
| Levenshtein.Fill | app_final/client/frontend/modules/javascript.js:690-710 | every cell of the filled matrix is the least number of single-character edits between its two prefixes |
| Levenshtein.Distance | app_final/client/frontend/modules/javascript.js:686-711 | the returned number is the length of a shortest edit script, although equal characters take the diagonal outright |
| Levenshtein.CellIsThreeWayMinimum | app_final/client/frontend/modules/javascript.js:697-706 | taking the diagonal on equal characters never loses against the other two neighbours |
| Levenshtein.CellBelowScripts | app_final/client/frontend/modules/javascript.js:686-711 | no edit script, wherever its edits fall, is shorter than the cell |
| Levenshtein.ScriptOfCell | app_final/client/frontend/modules/javascript.js:686-711 | a script of exactly the cell's length exists |
| Levenshtein.DistanceZeroIffEqual | app_final/client/frontend/modules/javascript.js:686-711 | the distance is zero exactly on equal words |
| Levenshtein.DistanceSymmetric | app_final/client/frontend/modules/javascript.js:692-706 | symmetric, although the loops treat rows and columns differently |
| Levenshtein.DistanceTriangle | app_final/client/frontend/modules/javascript.js:686-711 | the triangle inequality |
| Levenshtein.DistanceBounds | app_final/client/frontend/modules/javascript.js:686-711 | at least the difference of the lengths, at most the longer length |
| Levenshtein.BubbleFits | app_final/client/frontend/modules/javascript.js:790-798 | a bubble is accepted exactly when one of its words is within two edits of the query |
| Levenshtein.Filter | app_final/client/frontend/modules/javascript.js:780-808 | a row stays visible exactly when one of its bubbles is accepted, those are highlighted, and an empty query changes nothing |
| Crc32.UpdatesAreFeeds | app_final/client/main.cpp:359-382 | byte-wise table steps equal bit-wise register shifts from every register value |
| Crc32.BuildTable | app_final/client/main.cpp:359-375 | each table entry is eight register shifts of its index |
| Crc32.Checksum | app_final/client/main.cpp:358-385 | the table loop computes the bit-serial CRC-32 of section 8 of RFC 1952 on every payload |
| Crc32.CheckValue | app_final/client/main.cpp:358-385 | the digits from one to nine have the checksum CBF43926, the check value of CRC-32 |
| Crc32.BurstChangesCrc | app_final/client/main.cpp:377-384 | two payloads differing only inside four consecutive bytes never share a checksum |
| Packet.GetBytes | app_final/client/main.cpp:409-443 | the 512 bytes are the framed fields |
| Packet.FrameSays | app_final/client/main.cpp:409-443 | the bytes of every packet: the mark, type and quantity, the number modulo 2^32, the index modulo 2^48, the payload and its checksum |
| Packet.FrameRoundTrip | app_final/client/main.cpp:409-443 | receiving a framed packet gives type, quantity and payload back, the numbers modulo 2^32 and 2^48 |
| Packet.DeframeIsExact | app_final/client/main.cpp:886-909 | an accepted datagram is bit for bit the frame of what is read from it |
| Packet.BurstIsRejected | app_final/client/main.cpp:897-909 | a frame corrupted anywhere inside four consecutive payload bytes is rejected |
| Packet.UnsealSealed | app_final/client/main.cpp:912-921 | a sealed ciphertext is recovered exactly when it has 1 to 493 bytes |
| Packet.TextDelivery | app_final/client/main.cpp:1210-1228 | under an agreed key a text is saved intact exactly when it has 1 to 463 bytes, and otherwise not at all |
| Packet.TextSays | app_final/client/main.cpp:1210-1228 | the bytes of a text packet: at most 477 bytes, encrypted behind a two-byte length, or in the clear without a key |
| FileNames.DigitsInjective | app_final/client/main.cpp:1070-1072 | different numbers print differently |
| FileNames.FirstFreeIsFree | app_final/client/main.cpp:1069-1072 | the chosen suffix is the least free one and lies within one more than the directory's size |
| FileNames.CountUp | app_final/client/main.cpp:1069-1072 | the suffix loop ends within that many tries, at the first suffix whose name does not exist |
| FileNames.ChooseName | app_final/client/main.cpp:1042-1073 | the whole choice (cut at zero, reserved characters, suffix, also for `.` and `..`) yields a name that does not exist at that moment |
| FileNames.NameIsKept | app_final/client/main.cpp:1042-1073 | a usable name that does not exist is kept as it is, an unusable one is replaced by the message number in decimal, and one that exists gets the least free number in brackets before its last dot |
| FileNames.DigitsAreDecimal | app_final/client/main.cpp:1054-1072 | numbers are printed in decimal without leading zeros |
| Sender.ChunksMakeTheData | app_final/client/main.cpp:1270-1307 | as many chunks as the size divided by 461 rounded up, none empty, and together the data |
| Sender.OthersAreWanted | app_final/client/main.cpp:1210-1381 | over any list of events, besides the chunks of the timer the sender sends exactly the headers, texts and chunks again that were asked for, in order, until it is stopped |
| Sender.TransferIsSentIff | app_final/client/main.cpp:1267-1343 | over any list of events of the sender (texts, resends, other files, missing keys, a stop) the timer has sent the first chunks of a transfer, in order and without a gap, one for each of its handlers that ran; with no wait left it is sent whole if and only if it was never cut, that is by another file starting while the timer ran for it, a late handler re-arming the timer, a stop or a missing key |
| Sender.UndisturbedTransfer | app_final/client/main.cpp:1299-1343 | with any texts and resends but no other file, stop or missing key in between, one chunk goes out for each beat of the timer until all are sent, and a wait is left behind exactly as long as one is missing |
| Sender.SecondTransferPreempts | app_final/client/main.cpp:1291-1295 | a file started while the timer runs for another ends that other: it has sent exactly the chunks before the one it waited for, at least one is missing, and none is ever sent again |
| Sender.LateHandlerPreempts | app_final/client/main.cpp:1291-1339 | a file started when another's wait has already expired, with more than one chunk to go, is ended by that late handler, which arms the timer again: it never sends a chunk |
| Sender.UdpSender.StartFile | app_final/client/main.cpp:1267-1296 | unless stopped exactly one datagram goes out, whose bytes are the header: type 'F', quantity 1, the number of chunks, at most 487 bytes of the name; and the one timer is armed for chunk zero in place of any wait still running |
| Sender.UdpSender.OnTick | app_final/client/main.cpp:1292-1343 | the first expired wait is handled: one datagram goes out whose bytes are its chunk, encrypted, marked as the last or not, and the next wait is armed; after a stop or without a key nothing goes out |
| Sender.UdpSender.ResendFile | app_final/client/main.cpp:1345-1381 | if the offset lies inside the data and the key can be read, one datagram goes out whose bytes are the chunk of the asked index |
| Sender.UdpSender.SendTextMessage | app_final/client/main.cpp:1210-1238 | one datagram goes out whose bytes are the text, cut and encrypted, or in the clear when the key cannot be read |
| Receiver.UdpReceiver.HandleReceive | app_final/client/main.cpp:873-1149 | whatever the buffer holds, handling it is the specified step on files, texts, the other user's name and the shared key; the client listens again, with the whole buffer zeroed, unless it was stopped or the receive failed |
| Receiver.UdpReceiver.HandleOrganisation | app_final/client/main.cpp:941-1013 | a name is taken over, an offer or an answer is a step of the key exchange, anything else changes nothing |
| Receiver.RenamedIsOneLine | app_final/client/main.cpp:942-962 | the name is always one line of 1 to 64 bytes from the front of the packet, or what it was |
| Receiver.NameIsTaken | app_final/client/main.cpp:942-962 | a name that differs is taken over, its first 64 bytes up to a line break, unless nothing is left of it |
| Receiver.NamesAreRead | app_final/client/main.cpp:941-962 | an accepted packet of type 'O' renames exactly when its payload starts with 'N', and does nothing else to files and texts |
| Receiver.UdpReceiver.Receive | app_final/client/main.cpp:864-1149 | a datagram of at most 512 bytes is handled with the bytes the buffer holds behind it, which are zeros after any earlier datagram; a failed receive changes nothing |
| Receiver.UdpReceiver.HandleChunk | app_final/client/main.cpp:1083-1139 | storing a chunk, and writing the file when the count reaches the total |
| Receiver.CorruptedIsIgnored | app_final/client/main.cpp:897-909 | a packet corrupted inside four consecutive payload bytes changes nothing, neither files and texts nor the key, and is not answered |
| Receiver.TextIsSaved | app_final/client/main.cpp:910-939 | under an agreed key a text of 1 to 463 bytes is saved, whole and after all others; any other text is not; nothing else changes |
| Receiver.OnlyItsOwn | app_final/client/main.cpp:909-1141 | every datagram changes only what its type is about, and without the key nothing is read |
| Receiver.AssembledUpTo | app_final/client/main.cpp:1124-1132 | a file is put together up to the first missing chunk and counts as broken if there is one |
| Transfer.HeaderOnWire | app_final/client/main.cpp:1032-1081 | the bytes of a header start an empty collection with the sender's total under a name that does not exist |
| Transfer.ChunkOnWire | app_final/client/main.cpp:1083-1114 | the bytes of a chunk store exactly the sender's chunk, or nothing when its message is unknown |
| Transfer.CountForcesAll | app_final/client/main.cpp:1120-1133 | a chunk count equal to the total means every chunk is present, so assembling yields the whole file |
| Transfer.EveryWriteIsIntact | app_final/client/main.cpp:1014-1140 | in every run with loss, repetition, reordering and corruption inside four payload bytes every written file is the sender's data, the missing-chunk branch is never taken, and no empty file is written |
| Transfer.WritesNeverExceedHeaders | app_final/client/main.cpp:1078-1137 | in every run a file is written at most as often as its header was delivered |
| Transfer.Completion | app_final/client/main.cpp:1083-1139 | after a header and before the next, the file is written exactly once if every chunk is delivered at least once, else not |
| Transfer.SavedAreTheTexts | app_final/client/main.cpp:910-939 | in every run the saved texts are, in order, what the delivered packets carry: exactly the delivered texts of 1 to 463 bytes if none was sent without the key |
| Transfer.SentTransferIsWritten | app_final/client/main.cpp:1267-1343 | in any run of the sender in which a transfer was not cut and waits for nothing more, a header of it was sent; any such header delivered first, and then from the packets sent at least those of the timer, in any order and number, make the receiver write the file once |
| Transfer.RunCompletion | app_final/client/main.cpp:1083-1139 | the same for every run of the whole system |
| Transfer.WholeFileArrives | app_final/client/main.cpp:1014-1343 | after any run that leaves both sides at rest: a non-empty file that is started, whose timer beats undisturbed and whose packets are delivered ends up on the other side, written once, with its bytes, under its name if that can be kept, and nothing else has changed |
| Transfer.TextArrives | app_final/client/main.cpp:910-939 | a text of 1 to 463 bytes, sent with the key at hand and delivered, is saved, while both sides run |
| KeyExchange.AnswerRoundTrip | app_final/client/main.cpp:1151-1166 | a wrapped key sent behind its length is read back |
| KeyExchange.NoteIs | app_final/client/main.cpp:964-1010 | how the bytes of an organisational payload are read: an offer only with three equal copies, an answer with as many bytes as it announces |
| KeyExchange.CopiesAgree | app_final/client/main.cpp:966-971 | the loop accepts an offer exactly when its three copies agree |
| KeyExchange.KeyHolder.HandleNote | app_final/client/main.cpp:964-1013 | an offer with equal copies makes a key, stores it and returns it wrapped; an answer that can be unwrapped is stored; anything else changes nothing |
| KeyExchange.StoredKeysAgreeIff | app_final/client/main.cpp:964-1013 | over all runs with offers from both sides: once everything sent has arrived both store the same key if and only if no answer, or one with the very key made then, was on its way to the peer that took the last offer; and which keys they store otherwise |
| KeyExchange.SettledKeysAgreeIff | app_final/client/main.cpp:964-1013 | the outcome is settled when the last offer is taken, whatever is still on its way |
| KeyExchange.KeysAgree | app_final/client/main.cpp:964-1013 | with one initiator the last answer on its way carries the other side's stored key, and with none on its way both store the same |
| KeyExchange.CrossingOffersDisagree | app_final/client/main.cpp:988-1009 | a run of crossing offers ends with the two keys swapped |
| Wire.ParseIsExact | app_final/server/main.cpp:234-267 | the server accepts exactly the bytes that begin with a request in range, and reads that request |
| Wire.RequestRoundTrip | app_final/client/main.cpp:2180-2198 | parsing undoes writing, whatever follows |
| Wire.RequestTakenIff | app_final/server/main.cpp:246-260 | a client's request is taken exactly when it names at most 100 ports and 32 peers |
| Wire.RequestBytes | app_final/client/main.cpp:2180-2198 | the bytes of a request, field by field |
| Wire.RequestListBytes | app_final/client/main.cpp:2188-2198 | each port takes two bytes, the high one first, and each target its thirty-six |
| Wire.PeerIsBytes | app_final/server/main.cpp:209-219 | the bytes of one listed peer, field by field |
| Wire.WriteRequest | app_final/client/main.cpp:2180-2198 | the writing loops produce the request |
| Wire.ParseRequest | app_final/server/main.cpp:234-267 | the offset-moving parser reads it, in bounds on arbitrary bytes |
| Wire.WriteResponse | app_final/server/main.cpp:205-219 | the writing loop produces the answer |
| Wire.ReadResponse | app_final/client/main.cpp:2220-2271 | the client's loop reads it, in bounds on arbitrary bytes |
| Wire.ResponseRoundTrip | app_final/client/main.cpp:2220-2251 | the client reads exactly the peers the server wrote |
| Wire.ReadPeersIsGreedy | app_final/client/main.cpp:2229-2248 | on any bytes the client takes the longest run of complete records up to the announced number |
| Server.FindAvailablePorts | app_final/server/main.cpp:170-179 | the loop finds the first two ports both sides have free |
| Server.TwoPortsExist | app_final/server/main.cpp:170-179 | with up to 21111 blocked ports there are two, distinct, in 8888..30000, the two smallest |
| Server.LessIsLexicographic | app_final/server/main.cpp:198 | the order of numbers is that of the first differing byte |
| Server.MatchesInOrder | app_final/server/main.cpp:188-202 | the answer lists exactly the live targets that ask back, in the order they were asked for |
| Server.CoordinatingServer.BuildRoutineResponse | app_final/server/main.cpp:181-221 | the answer is the encryption of the specified matches |
| Server.CoordinatingServer.ProcessRoutineRequest | app_final/server/main.cpp:223-290 | a request is rejected exactly without a key, undecipherable or malformed, and then changes nothing; an accepted one is stored field by field, the named address as the local one, beside all other sessions, and answered |
| Server.CoordinatingServer.Sweep | app_final/server/main.cpp:399-405 | erasing while iterating keeps exactly the sessions at most 30 seconds old, as they were |
| Rendezvous.AnswersAreGood | app_final/server/main.cpp:188-221 | in every reachable state every listed peer has the two smallest common free ports, and the client reads back the server's list |
| Rendezvous.TableIsAlwaysHistory | app_final/server/main.cpp:286-287 | a session is in the table exactly when its latest accepted check-in has survived every sweep since |
| Rendezvous.LiveSessionIs | app_final/server/main.cpp:240-287 | in every run a live session holds what its latest accepted check-in said, where and when it came from, and the key it was accepted under |
| Rendezvous.ListedPeerIs | app_final/server/main.cpp:188-203 | in every run a listed peer is described from the two requests: its local address if both came from the same public one, else its public address; the two smallest ports neither named busy; the client whose number comes first listens on the larger |
| Rendezvous.Consent | app_final/server/main.cpp:188-203 | A is answered with B exactly when A just asked for B and either B is A itself or B's latest, live check-in asked for A |
| Rendezvous.Mirroring | app_final/server/main.cpp:188-203 | after B was matched to A, A's check-in is matched to B with listen and send ports exchanged and the same kind of address |
| Rendezvous.RequestArrives | app_final/client/main.cpp:2180-2203 | an encrypted request within the limits is taken exactly as it was meant |
| Rendezvous.TwoMeet | app_final/server/main.cpp:223-370 | after any run: two new clients register, check in within thirty seconds of each other and ask for each other, and the second is told of the first and how to reach it |
| CoordinationClient.HandleIsOk | app_final/client/main.cpp:2077-2347 | after every callback exactly one operation is pending, in a state that fits it |
| CoordinationClient.SwitchedOffClosesUp | app_final/client/main.cpp:2150-2160 | with the switch off a callback that waits for the timer has closed the socket, and a tick or an answered check-in drops the registration |
| CoordinationClient.TimerCases | app_final/client/main.cpp:2319-2346 | what the timer does in each state: flags, socket, the operation that follows, and the bytes sent |
| CoordinationClient.ConnectCases | app_final/client/main.cpp:2084-2116 | the same after connecting: a registration or a check-in goes out, or the socket is closed |
| CoordinationClient.PayloadCases | app_final/client/main.cpp:2118-2215 | the same after a reply: a bad registration reply closes the socket, a good one leads to a check-in, an answered check-in keeps the connection |
| CoordinationClient.TcpClient.Run | app_final/client/main.cpp:2077-2347 | handling the one pending operation leaves exactly one pending, in a state that fits it; either the socket was closed and the client waits for its timer, or at most one frame went out, a check-in only registered and switched on, a registration only unregistered |
| CoordinationClient.TcpClient.Retry | app_final/client/main.cpp:2319-2347 | exactly one timer is armed, all armed before are cancelled and nothing else pending changes; switched off an open socket is closed and the registration dropped, switched on neither changes |
| Lockstep.Session.HeaderRead | app_final/server/main.cpp:309-319 | the header is stored; a payload is awaited if and only if the announced length is at most 512 KiB, and the first five bytes of a frame lead to a payload of that frame's type and length |
| Lockstep.Session.PayloadRead | app_final/server/main.cpp:320-370 | a reply is written if and only if the payload is a registration of at least 32 or a check-in of at least 36 bytes whose processing produced something; it is a frame of the next type whose length field and content are those of what was produced; every other payload ends the connection |
| Lockstep.StepOk | app_final/client/main.cpp:2276-2310 | every step of client, server or network keeps the two ends in step, byte for byte |
| Lockstep.PayloadIsTheReply | app_final/client/main.cpp:2294-2309 | in every run the payload handed to the client is whole and comes from a reply of the awaited type |
| Lockstep.RequestIsWhatWasSent | app_final/server/main.cpp:320-328 | in every run the payload the server processes is whole and of the type the client sent |
| Lockstep.KeepsStep | app_final/client/main.cpp:2077-2347 | for every interleaving: one pending operation, at most one unanswered request per connection, no reply taken for the other kind, a timer on an open socket only when registered |
| Lockstep.CheckInsNeedRegistration | app_final/client/main.cpp:2106-2205 | in every run a check-in is built only when registered and switched on, a registration only when unregistered |
| Lockstep.CheckInCompletes | app_final/client/main.cpp:2276-2347 | undisturbed, every check-in of 36 bytes up to 512 KiB is answered, and both ends are ready for the next on the same connection |
| Coordination.KeysMatch | app_final/client/main.cpp:2118-2148 | in every run of client, server and other clients, a client that thinks itself registered holds the key the server has saved for its number |
| Coordination.RegistrationsAreRead | app_final/client/main.cpp:2118-2143 | in every run a registration reply that has arrived is long enough and can be unwrapped, to the key the server has saved for the number in it |
| Coordination.CheckInsAreTakenIff | app_final/server/main.cpp:223-267 | in every run a check-in that has arrived is taken exactly as the client meant it, if and only if it names at most 100 ports and 32 peers |
| Coordination.AnswersAreRead | app_final/client/main.cpp:2208-2251 | in every run an answer that has arrived decrypts under the client's key, and the client reads exactly the peers the server found for it when it took a check-in of this client on this connection |
| Coordination.CheckInsAreStored | app_final/server/main.cpp:286-289 | in every run taking an accepted check-in stores its session field by field and answers it on its connection with the list found |
| Coordination.RegistrationsAreAnswered | app_final/server/main.cpp:330-346 | in every run a registration that has reached the server saves the new key under the new number and sends both back, the key wrapped for this client |
| Coordination.RegistrationsAreTaken | app_final/client/main.cpp:2118-2148 | in every run a registration reply that has arrived with the switch on registers the client under the number and key given out, and a check-in under both goes out at once |
| Coordination.ServerRuns | app_final/server/main.cpp:320-405 | in every run of client, connections and other clients the server goes through exactly the registrations, check-ins and sweeps that reached it: the world refines the server's own runs |
| Coordination.ListedByConsent | app_final/server/main.cpp:188-203 | in every run the list a client reads names B exactly when the check-in it answers asked for B and B is the client itself or its latest, live check-in asked for this client |
| TextReplace.Replace | app_final/client/QLib.hpp:47-56 | the result glues the leftmost non-overlapping split of the original with the replacement, and the loop ends |
| TextReplace.SplitIsUnique | app_final/client/QLib.hpp:47-56 | that split is unique |
| TextReplace.SplitIsLossless | app_final/client/QLib.hpp:47-56 | glued with the pattern it gives the original back |
| JsonText.JsonEscape | app_final/client/QLib.hpp:32-45 | the appending loop escapes character by character |
| JsonText.EscapedForms | app_final/client/QLib.hpp:35-42 | the five characters written as two, and every other one copied |
| JsonText.EscapeRoundTrip | app_final/client/QLib.hpp:32-45 | reading by section 7 of RFC 8259 gives the text back exactly when it has no control character besides tab, carriage return and newline |
| MessageLog.MessageFile.SaveMessage | app_final/client/main.cpp:336-352 | the bytes appended: an empty line, the tag of the author, the three fields, the end mark |
| MessageLog.Tags | app_final/client/main.cpp:119-121 | the friend's records are tagged `$friend` and one's own `$you`, and no other line is a tag |
| MessageLog.MakeJsonMessages | app_final/client/main.cpp:107-145 | the nested reading loops print the records the lines mean |
| MessageLog.ItemText | app_final/client/main.cpp:137-142 | the characters printed for one record, the friend's under the friend's number and one's own under `you` |
| MessageLog.LogRoundTrip | app_final/client/main.cpp:118-131 | saved records are read back in order, with junk lines anywhere between them |
| MessageLog.LogFaithfulIffOneLine | app_final/client/main.cpp:118-131 | the log gives its records back exactly when no text contains a newline |
| MessageLog.JsonRoundTrip | app_final/client/main.cpp:133-144 | a JSON reader gets exactly the records from the printed array, each under its author |
| MessageLog.SaveAllThenRead | app_final/client/main.cpp:336-352 | from an empty log, any saves and then one read print exactly those records, and they decode to the originals, each under its author |
| HttpRequest.Connection.HandleRead | app_final/client/main.cpp:1489-1514 | the piece is appended and the decision made on all that has arrived, the length read as the library conversion reads it: blanks, a sign, wrap-around, and failure without a digit or out of range |
| HttpRequest.NumberReads | app_final/client/main.cpp:1507 | blanks, an optional sign, zeros and a number printed in decimal are read as that number, wrapped around after a minus, and fail beyond 32 bits |
| HttpRequest.NumberFails | app_final/client/main.cpp:1507 | without a digit the reading fails |
| HttpRequest.SegmentationDoesNotMatterIff | app_final/client/main.cpp:1489-1514 | every way of cutting a request leads to acting on exactly the whole, if and only if the length printed in its header is the body's |

## Left out

- Transfer.EveryWriteIsIntact: assumes message numbers are not reused, as the random choice of `get_messageID` intends, and fewer than 2^48 chunks, which covers the documented maximum (`development/Luka/_packets_template.txt:18`); two files of the same name may still overwrite each other in the directory.
- Transfer.SentTransferIsWritten: both sides hold the same key throughout; what a receiver makes of chunks under another key is not modelled.
- Receiver.UdpReceiver.Receive: a datagram of more than 512 bytes counts as a failed receive, as on Windows.
- Receiver.UdpReceiver.HandleOrganisation: the escaped copy of the name on disk is not modelled, nor the bytes behind a name that fills the whole payload.
- KeyExchange.KeyHolder.HandleNote: an answer announcing more bytes than a payload holds is ignored, where the source would read past the buffer.
- FileNames.ChooseName: names are compared byte by byte, without the case folding of Windows directories.
- HttpRequest.Connection.HandleRead: `unsigned long` has 32 bits, as in the Windows builds of `app_final/client/build.ps1`.
- Coordination.CheckInsAreTakenIff: numbers given out at registration are taken as never repeated, which the random choice of `generate_uuid` intends.
- CoordinationClient.TcpClient.Run: `stop()`, which nothing calls, and the exception for a missing public-key file are not modelled.
- Levenshtein.Filter: lower-casing and splitting a bubble into words are done before the model starts.
- OpenSSL, Asio, timers and the file system: foreign code; handlers become steps, time a number, directories and files maps.
- Corruption of the 13 header bytes, which the checksum does not cover.
- HTTP routing, HTML, the page's other scripts, JSON bodies of `/send`, hex key files, user selection and online status: they would only add easy members.
- `app_final/client/_wersja_przeslanie` repeats the same functions; `development` holds prototypes.
