# NTorrent, modelled and proved in Dafny

NTorrent is a peer-to-peer file program over UDP. This project models how it downloads a file, from the bytes of a
message to the merged copy on disk, and proves what each layer promises the next one.

| layer | files | what is modelled |
|---|---|---|
| message codec | `Bytes`, `Sequences`, `Codec`, `Frames`, `Messages` | typed values pushed on and popped off a message body; the three kinds of frame; file and path messages as bytes |
| reliable session | `Protocol`, `Session` | one end of a session: handler by handler as functions, and as a class that updates its fields |
| | `SessionSafety`, `SessionTheorems`, `SessionAcks`, `SessionLimits`, `SessionRecovery`, `ReorderBuffer` | two ends and a network that loses, repeats and reorders frames; what holds in every run |
| SHA-1 | `Sha1Spec`, `Sha1Example`, `Sha1` | FIPS 180-4 as the standard states it, with its published example; the in-place, unrolled, streaming code against it |
| piece store | `InfoText`, `FileStore`, `FileTheorems` | `.info` texts and stream reading; cutting, checking, merging; restarting |
| path search | `PathSearch`, `PathNetwork`, `PathTheorems`, `PathProgress` | the flood of a request through any network of nodes, responses on their way back, addresses on their way forth |
| piece transfer | `FileManager`, `FileStreams`, `FileSafety`, `FileAsking`, `Transfer`, `TransferTheorems` | chunks on credit; who asks for what, and when again; any mix of sessions at one node; a whole download between two nodes |

`dafny verify dfyconfig.toml` checks everything.

## How the model is built

Each handler of the program is a function from state to state, and a method of a class that updates fields in place is
proved equal to it (`SessionObject.Session`, `Sha1.SHA1`, `FileStore.FileSystem`, `PathSearch.PathManager`,
`FileManager.NodeServer`, `Codec.MessageBuffer`). Systems of several ends or nodes are then step relations over the
functions, and the theorems are about every run of them.

Assumptions, each of which the code relies on:

- A handler runs to its end before the next one begins; a call of `send` counts as a handler.
- A frame is lost, repeated or delivered as a whole, although its header and its body are two datagrams, and it enters
  the network when its last byte has been written.
- Timers may fire at any time, and a request never expires.
- Ids stay below 2^63, and fresh request and response ids are unique. Neither the sessions nor which node holds which
  file change during a search, and every active session of default type is connected.
- Paths joined with a backslash name files in directories, as the code means them to: the restart theorems need the
  `.info` files to be found in the data directory.
- A path message is handled once for each time it is sent, in any order: the session layer below sees to that.
- In a download between two nodes the session keeps the order of messages, and the uploader is honest.

## What was found to be false, and when it holds

- More than 65536 ids ahead of the receiver, delivery can be out of order, because the reorder buffer is keyed by 16 bits
  (`SessionLimits.OneTooManyBreaksOrder`); up to that many it never is (`SessionTheorems.DeliveredInOrder`).
- A burst of exactly 65536 deliveries in one handler sends no acknowledgement for the last of them, because the
  counter of the loop has 16 bits. It happens exactly when every slot of the reorder buffer but that of the next id is
  taken (`SessionTheorems.AnnouncesDelivery`, and `DeliveryAnnouncedUnlessFull` for the steps of runs), and there is a
  run in which it does (`SessionLimits.WholeWindowIsNotAnnounced`).
- A message too large for the reader's size check is never delivered, nor anything after it
  (`SessionTheorems.TooLargeBlocks`), and the session never recovers past it (`SessionRecovery.RecoversIffAllFit`);
  `SessionLimits.TooLargeIsLost` is a run with one such message.
- A file whose length is a positive multiple of the piece size loses its last piece when it is cut, because the last
  piece gets the remainder (`FileTheorems.SplitThenConcat`, `FileTheorems.UploadThenMerge`).
- An empty file never arrives: its record has no pieces, so a node that adds it has all of it at once, gives it up when
  asked to begin, and merges nothing (`TransferTheorems.CompleteIsGivenUp`). A file arrives exactly when its length is
  neither 0 nor a multiple of the piece size (`TransferTheorems.FileTravels`).
- A file name with white space does not survive its `.info` text (`InfoText.InfoRoundTrip`).
- Merging stops at the first empty or missing piece (`FileTheorems.MergeExact`).
- The end of a piece from a session that has not asked for one can put two streams on one piece
  (`FileSafety.EarlyEndBreaks`), after which a piece that is had need not match its record
  (`FileSafety.EarlyEndSpoils`). `FileSafety.EndIsSafeWhenAlone` says exactly when it cannot, and a session that asked
  for its piece is always in the clear (`FileSafety.OwnEndIsAllowed`).
- A session that waits for a piece is forgotten when another one comes to wait, because the node has one timer: it is
  set anew, and asks for the later session alone, however often it fires (`FileAsking.LaterWaitReplaces`). If nobody else
  asks in between, the session that waits does ask again (`FileAsking.WaitingAsksAgain`).
- A piece whose number does not fit in 16 bits, or is 65535, is claimed but never asked for under its own number;
  asking does what it should exactly when the piece has a number below that (`FileAsking.AskingIffNumbered`).
- A second request for a piece while one is being sent makes the stream fail, and the session then sends zero bytes for
  every credit and never the end of the piece (`FileStreams.SecondRequestSendsZeros`, `FileStreams.FailedSendsZeros`).
  Bytes that come to a stream that has failed are written nowhere (`FileStreams.FailedWritesNothing`).
- The hop count of a path request travels unchanged (`PathTheorems.HopCountStays`) and never stops it: for every number
  there is a run over that many hops (`PathProgress.AnyNumberOfHops`). Only the record of a request stops it.
- Two ends that both have messages queued while neither writes wait for each other for ever, though nothing more is
  lost (`SessionRecovery.StuckIsLost`, `SessionLimits.BothQueuedIsStuck`); when all messages fit, that is the only way
  not to recover (`SessionRecovery.RecoversUnlessStuck`).

## Model

| member | source | states |
|---|---|---|
| Codec.RoundTrip | netlib_message.h:45-121 | a value popped with its shape comes back, with the body below it, exactly when every count in it fits 32 bits |
| Codec.RoundTripAll | netlib_message.h:45-121 | any list of values pushed and popped in reverse comes back, with the body below it |
| Codec.RoundTripVector | netlib_message.h:71-95 | a vector's elements come back in order through the reversed reading loop |
| Codec.RoundTripText | netlib_message.h:45-68 | the same for strings |
| Codec.Layout | netlib_message.h:45-108 | what is on the body: the elements or characters in order, and then their number |
| Bytes.LeBytesAt | netlib_message.h:98-108 | the bytes of an integer, least significant first |
| Codec.MessageBuffer.PushFixed | netlib_message.h:98-108 | appends the bytes of a value and keeps the header's size equal to the body's length |
| Codec.MessageBuffer.PushText | netlib_message.h:45-55 | a string is pushed as a vector of its characters |
| Codec.MessageBuffer.PushVector | netlib_message.h:71-81 | elements first, then their count |
| Codec.MessageBuffer.PushValue | netlib_message.h:45-108 | the push of any value is the codec's, size included |
| Codec.MessageBuffer.PopFixed | netlib_message.h:111-121 | takes the last bytes off the body |
| Codec.MessageBuffer.PopText | netlib_message.h:57-68 | takes a string off the body |
| Codec.MessageBuffer.PopVector | netlib_message.h:84-95 | takes a count and that many elements off, last one first |
| Codec.MessageBuffer.PopValue | netlib_message.h:57-121 | the pop of any shape is the codec's |
| Frames.FrameRoundTrip | netlib_session.h:50-61 | the reader gets the kind, the id and the message of every frame written |
| Frames.TrailerParts | netlib_session.h:162-168 | the last nine bytes of a numbered message are its id and its flag, and the rest is the message |
| Frames.FitsUpTo | netlib_session.h:272-287 | a message passes the reader up to 32759 bytes and type 17 |
| Frames.FrameBytes | netlib_session.h:41-61 | the bytes of pings, acknowledgements and messages, and their flag |
| Frames.DecodeFails | netlib_session.h:186-211 | reading a frame fails exactly on too few bytes for its type, or a user's message without the flag |
| Messages.FileMessageReturns | netlib_nodeserver.h:425-565 | the receiving manager reads every file message as it was sent |
| Messages.FileFits | netlib_nodeserver.h:425-481 | such a message passes the reader of a session exactly up to a size |
| Messages.EverythingSentFits | netlib_nodeserver.h:425-565 | whatever happens at a node whose files are named by their hashes, every file message it sends passes the reader |
| Messages.PathMessageReturns | netlib_nodeserver.h:257-379 | the values pushed for a path message are those read |
| Messages.PathMessagesFit | netlib_nodeserver.h:257-388 | every path message a node sends passes the reader, when ids have their own lengths and addresses at most 64 characters |
| SessionObject.Session.SendNoAnswer | netlib_session.h:41-48 | two datagrams for one frame; the caller's message is as before |
| SessionObject.Session.Send | netlib_session.h:50-61 | the message is numbered and queued, a write starts when none is on and the peer is there, and the caller's message is as before |
| SessionObject.Session.Ping | netlib_session.h:111-120 | a ping now, or after the write in progress |
| SessionObject.Session.Pong | netlib_session.h:122-127 | an acknowledgement frame |
| SessionObject.Session.TryPong | netlib_session.h:129-136 | an acknowledgement now, or the largest one later |
| SessionObject.Session.WriteHeader | netlib_session.h:237-242 | the front of the queue becomes the write in progress |
| SessionObject.Session.HeaderWritten | netlib_session.h:243-262 | the body follows the header |
| SessionObject.Session.EndOfWriting | netlib_session.h:162-184 | a message written for the first time joins the window; a waiting acknowledgement goes out |
| SessionObject.Session.TrimLatest | netlib_session.h:199-201 | the loop leaves exactly the ids above the acknowledged one |
| SessionObject.Session.DrainFuture | netlib_session.h:216-222 | the loop delivers as far as ids go on, and counts in 16 bits |
| SessionObject.Session.ReadData | netlib_session.h:204-225 | a numbered message is buffered and delivered, and answered if it asks for that, as the model says |
| SessionTheorems.UnansweredDelivery | netlib_session.h:208-225 | a message that asks for no answer is delivered like any other, and acknowledged exactly when it sets free the one after it and not a whole window |
| SessionObject.Session.EndOfReading | netlib_session.h:186-235 | every kind of frame leads to the state the model says |
| SessionObject.Session.ReceiveFrame | netlib_session.h:272-324 | a frame the header and length checks refuse changes nothing |
| SessionObject.Session.RepeatFired | netlib_session.h:326-336 | the front of the window goes to the front of the queue |
| SessionObject.Session.PingFired | netlib_session.h:338-357 | a ping when nothing is queued or no peer is known |
| SessionSafety.StepKeeps | netlib_session.h:41-357 | every step of either end keeps the invariant of the two ends and the network |
| SessionSafety.RunKeeps | netlib_session.h:41-357 | so every run does |
| SessionTheorems.DeliveredInOrder | netlib_session.h:186-235 | what an end has delivered is a prefix of what the other was given, message for message, while ids are at most 65536 ahead |
| SessionTheorems.DeliveredWhenFewOutstanding | netlib_session.h:50-61 | the same from what each sender can check by itself |
| SessionTheorems.NothingForgotten | netlib_session.h:162-202 | the window and the queue hold every id the peer may miss, each with its own message, in order, despite repeats put in front |
| SessionTheorems.TrimStaysInWindow | netlib_session.h:195-202 | no acknowledgement in the network makes the trimming loop pop an empty window |
| SessionTheorems.TooFarPongBreaks | netlib_session.h:195-202 | an acknowledgement of an id never written would, and only such a one |
| SessionTheorems.WireFraming | netlib_session.h:41-61 | in every run, datagrams are whole header-body pairs and at most one open one, open only during a write, and an acknowledgement waits only for a write |
| SessionTheorems.AnnouncesDelivery | netlib_session.h:208-224 | the next id delivers, and that is acknowledged, now or when the write ends, exactly when another slot of the buffer was free before the call |
| SessionTheorems.DeliveryAnnouncedUnlessFull | netlib_session.h:203-231 | so for every step of a run that delivers, at either end |
| SessionTheorems.EveryDeliveryIsAnnounced | netlib_session.h:203-231 | every step of a run that delivers, at either end, announces it, with fewer than 65536 ids ahead there |
| SessionTheorems.TooLargeBlocks | netlib_session.h:282-287 | a message the reader refuses is never delivered in any run, nor anything after it, at either end |
| SessionTheorems.PongsAreSound | netlib_session.h:122-136 | every acknowledgement ever written is for something delivered |
| SessionAcks.WaitingIsWritten | netlib_session.h:129-184 | in every run, an acknowledgement that waits waits on, for no smaller id, only during a write, until one that is no smaller is written |
| SessionAcks.DeliveriesAreAcknowledged | netlib_session.h:162-235 | what a step delivers, if it is not a whole window, has been acknowledged by a frame written since in every later state in which that end is not writing |
| SessionAcks.SilentUntilConnected | netlib_session.h:50-61 | until an end has read a frame it writes nothing but pings |
| SessionLimits.OneTooManyBreaksOrder | netlib_session.h:401 | a run one id too far ahead delivers the wrong message |
| SessionLimits.WholeWindowIsNotAnnounced | netlib_session.h:216-224 | a run, never too far ahead, whose last step delivers 65536 messages and does not announce them |
| SessionLimits.TooLargeIsLost | netlib_session.h:282-287 | a run with one message too large, which changes nothing at the receiver and is past recovery |
| SessionRecovery.Round | netlib_session.h:326-336 | one repeat, written and answered, moves the acknowledged id up |
| SessionRecovery.RecoversIffAllFit | netlib_session.h:203-357 | from the last state of every windowed run, for either end whose peer has nothing queued, a finite continuation on new frames alone delivers and acknowledges everything it was given, exactly when every message passes the reader |
| SessionRecovery.StuckIsLost | netlib_session.h:338-350 | with messages queued at both ends, both idle and connected, there is none for either |
| SessionRecovery.RecoversUnlessStuck | netlib_session.h:162-357 | whatever is queued, when all messages fit and few are undelivered, there is one exactly when the ends are not stuck so |
| SessionLimits.BothQueuedIsStuck | netlib_session.h:50-57 | a run that ends so: each end sends two messages, and the first ones are lost |
| ReorderBuffer.InsertRefines | netlib_session.h:211-213 | storing by 16 bits is storing by the whole id exactly for ids at most 65536 ahead |
| ReorderBuffer.DrainRefines | netlib_session.h:216-222 | the drain loop is the same on both buffers |
| ReorderBuffer.AcceptRefines | netlib_session.h:211-222 | accepting one message, drain included, leaves both buffers alike exactly when its id is at most 65536 ahead |
| ReorderBuffer.AcceptAllRefines | netlib_session.h:211-222 | any sequence of messages in the window does |
| ReorderBuffer.FullWindowDelivers | netlib_session.h:216-222 | from any buffer with every other slot taken, the next id delivers a whole window |
| ReorderBuffer.DeliversWindow | netlib_session.h:216-222 | between handlers, the next id delivers at most a window, and a whole one exactly then |
| Sha1Spec.PadFits | modules/netlib_sha1.h:259-279 | the padding is the least that leaves room for the length |
| Sha1Spec.RotlMoves | modules/netlib_sha1.h:49-51 | turning a word left by n moves bit k to place k + n, modulo 32 |
| Sha1Example.AbcDigest | modules/netlib_sha1.h:255-292 | the digest of "abc" is the published one, by way of its 80 schedule words and rounds |
| Sha1Example.Digit | modules/netlib_sha1.h:282-286 | the digits are 0 to 9 and a to f |
| Sha1.Reschedule | modules/netlib_sha1.h:54-56 | the word put in place of the oldest one is the next word of the 80-word schedule |
| Sha1.R0 | modules/netlib_sha1.h:63-68 | a round of the standard, with registers renamed instead of moved |
| Sha1.R1 | modules/netlib_sha1.h:71-77 | the same, with the schedule word made in place |
| Sha1.R2 | modules/netlib_sha1.h:80-86 | the same for rounds 20 to 39 |
| Sha1.R3 | modules/netlib_sha1.h:89-95 | the same for rounds 40 to 59, with Maj as the code writes it |
| Sha1.R4 | modules/netlib_sha1.h:98-104 | the same for rounds 60 to 79 |
| Sha1.ScheduleStep | modules/netlib_sha1.h:54-56 | sixteen words at their index modulo 16 are all the schedule needs |
| Sha1.ChoiceForm | modules/netlib_sha1.h:66 | the code's choice is Ch of section 4.1.1 |
| Sha1.MajorityForm | modules/netlib_sha1.h:93 | the code's majority is Maj of section 4.1.1 |
| Sha1.Transform | modules/netlib_sha1.h:111-210 | the 80 unrolled rounds are the compression of section 6.1.2 |
| Sha1.BufferToBlock | modules/netlib_sha1.h:213-221 | the block holds the words of the buffer, most significant byte first |
| Sha1.PadInOneBlock | modules/netlib_sha1.h:259-279 | up to 55 bytes are padded as section 5.1.1 says, in one block |
| Sha1.PadInTwoBlocks | modules/netlib_sha1.h:269-279 | more are padded so in two, the second of zeros and the length |
| Sha1.PrintedWord | modules/netlib_sha1.h:282-286 | a zero-filled field of eight prints the eight digits of a word |
| Sha1.SHA1.Update | modules/netlib_sha1.h:229-248 | any way of cutting the input leaves the digest of its whole blocks and the rest |
| Sha1.SHA1.Final | modules/netlib_sha1.h:255-292 | the text is SHA-1 of everything fed in, and the object is as new |
| Sha1.FromFile | modules/netlib_sha1.h:295-300 | the same for the content of a file |
| InfoText.InfoRoundTrip | modules/netlib_filesystem.h:98-110 | a record written and read is the same but for the name, which is the same exactly when it has no white space |
| InfoText.PiecesAreRead | modules/netlib_filesystem.h:105-107 | the reading loop takes the lines written, up to the name |
| InfoText.CopyReadsTheSame | modules/netlib_filesystem.h:200-209 | the copy made of any text whose id and count can be read is read as the same record |
| InfoText.AnyWordIsRead | modules/netlib_filesystem.h:98-110 | a word goes from the first to the next of the six characters of white space |
| InfoText.AnyNumberIsRead | modules/netlib_filesystem.h:98-110 | a number may have a sign; a minus counts down from 2^64; one too large reads as the largest and makes the stream fail |
| InfoText.NoNumberIsRead | modules/netlib_filesystem.h:98-110 | anything else reads as 0 and makes the stream fail |
| InfoText.ReadingAtEnd | modules/netlib_filesystem.h:98-110 | a read from a failed stream, or at its end, leaves the old value |
| InfoText.ShortTextKeepsOld | modules/netlib_filesystem.h:98-110 | a text that ends after the count leaves what was known of the file, cut or filled up to that many pieces |
| InfoText.TextOfOne | modules/netlib_filesystem.h:180-191 | the text of a record: id, count, hash and size of each piece, name |
| FileStore.FileSystem.constructor | modules/netlib_filesystem.h:14-35 | starting reads the records of every `.info` text listed |
| FileStore.FileSystem.CheckPiece | modules/netlib_filesystem.h:74-86 | true exactly when the piece is there with the recorded size and SHA-1 |
| FileStore.FileSystem.CheckPieces | modules/netlib_filesystem.h:88-96 | every piece is had exactly when it checks |
| FileStore.FileSystem.UpdateFullFile | modules/netlib_filesystem.h:98-110 | the record read over what was known of the file |
| FileStore.FileSystem.CheckFile | modules/netlib_filesystem.h:112-121 | true exactly when the file is known and every piece is had |
| FileStore.FileSystem.GetNonePiece | modules/netlib_filesystem.h:123-135 | the first piece that is neither had nor open becomes open |
| FileStore.FileSystem.AddPiece | modules/netlib_filesystem.h:137-152 | the piece is had exactly when it checks, and the last one merges the file |
| FileStore.FileSystem.SplitFile | modules/netlib_filesystem.h:159-191 | the pieces and the text of the file are on disk |
| FileStore.FileSystem.AddFile | modules/netlib_filesystem.h:193-212 | a file not yet known gets a copy of the text and a record |
| FileStore.FileSystem.MergePieces | modules/netlib_filesystem.h:218-231 | the pieces up to the first empty or missing one |
| FileStore.FileSystem.UploadFile | modules/netlib_filesystem.h:237-250 | a file not yet known is cut and its record read back |
| FileStore.BufferIsPiece | modules/netlib_filesystem.h:168-178 | the next read of the file gives the next piece |
| FileTheorems.SplitThenConcat | modules/netlib_filesystem.h:159-191 | the pieces make the file again exactly when its length is 0 or no multiple of the piece size, and otherwise all but the last piece of it |
| FileTheorems.UploadCuts | modules/netlib_filesystem.h:159-191 | the pieces on disk after an upload, byte for byte: one every 262144 bytes, and in the last one what is left, or nothing |
| FileTheorems.FileNames | modules/netlib_filesystem.h:154-157 | a name without slashes is its own file name, with any directory and slash of either kind in front |
| FileTheorems.MergeExact | modules/netlib_filesystem.h:218-231 | merging writes the concatenation of what is on disk exactly when no piece with content follows an empty or missing one |
| FileTheorems.UploadVerifies | modules/netlib_filesystem.h:237-250 | a file just uploaded checks, piece by piece and as a whole |
| FileTheorems.UploadThenMerge | modules/netlib_filesystem.h:218-250 | merging it gives the file exactly under the same condition |
| FileTheorems.KnownIsKept | modules/netlib_filesystem.h:193-250 | a file that is known, or cannot be read, is not taken in again |
| FileTheorems.UploadedKeeps | modules/netlib_filesystem.h:237-250 | uploading leaves every piece had matching its record |
| FileTheorems.AddedKeeps | modules/netlib_filesystem.h:193-212 | so does adding an `.info` text, whatever it says |
| FileTheorems.ClaimKeeps | modules/netlib_filesystem.h:123-135 | so does claiming a piece |
| FileTheorems.AddedPieceKeeps | modules/netlib_filesystem.h:137-152 | so does adding one |
| FileTheorems.AddedPieceVerdict | modules/netlib_filesystem.h:137-152 | a piece added is had exactly when it is on disk, has the recorded length, and its SHA-1 is the recorded one; nothing else changes |
| FileTheorems.UpdatedVerdict | modules/netlib_filesystem.h:74-110 | so for every piece of a record that is read |
| FileTheorems.CompleteVerifies | modules/netlib_filesystem.h:112-121 | a complete file matches its record in every piece |
| FileTheorems.UploadedPersists | modules/netlib_filesystem.h:237-250 | the text of an uploaded file reads back as its record, without disturbing others |
| FileTheorems.AddedPersists | modules/netlib_filesystem.h:193-212 | so does the text of an added file |
| FileTheorems.ClaimPersists | modules/netlib_filesystem.h:123-135 | claiming a piece leaves every text reading back as its record |
| FileTheorems.AddedPiecePersists | modules/netlib_filesystem.h:137-152 | so does adding one |
| FileTheorems.RestartKeeps | modules/netlib_filesystem.h:14-35 | a node that starts again has the same records and every piece that matches, among them all it had |
| PathSearch.PathManager.SendToOthers | netlib_nodeserver.h:303-311 | the message goes once to every active session of default type but one, connected ones only when a search starts, and to no other |
| PathSearch.UsableMember | netlib_nodeserver.h:303-311 | the sessions in use are exactly the active ones of default type, connected ones only when a search starts, each once |
| PathSearch.UnknownIsDropped | netlib_nodeserver.h:283-356 | a request seen before changes nothing, nor does a response or an address with an unknown id |
| PathSearch.PathManager.SendPathRequest | netlib_nodeserver.h:373-388 | a search is recorded and sent to every connected session |
| PathSearch.PathManager.SendResponse | netlib_nodeserver.h:257-266 | an answer under a new id, back where the request came from |
| PathSearch.PathManager.UpdateRequest | netlib_nodeserver.h:279-314 | a request seen before is dropped, and any other recorded and answered or passed on |
| PathSearch.PathManager.UpdateResponse | netlib_nodeserver.h:315-345 | a response goes back the way of its request, or opens a file session |
| PathSearch.PathManager.UpdateAddress | netlib_nodeserver.h:346-369 | an address follows the response back to its responder |
| PathSearch.PathManager.UpdatePathManager | netlib_nodeserver.h:277-371 | every path message leads to the table and the messages the model says |
| PathNetwork.StepKeeps | netlib_nodeserver.h:257-388 | every search started and every packet handled keeps the invariant of the whole network |
| PathNetwork.WiredIsOk | netlib_nodeserver.h:303-388 | when the links of a network join its active default sessions, those are the sessions a search floods over |
| PathTheorems.PointersReachOriginator | netlib_nodeserver.h:285-288 | from every node that recorded a request the recorded sessions lead to its originator, and no way along them repeats a node |
| PathTheorems.ResponseRetraces | netlib_nodeserver.h:315-371 | a response goes through different nodes along those sessions, and its own leave the same way back |
| PathTheorems.FloodIsBounded | netlib_nodeserver.h:279-314 | a search sends no more requests than the nodes have sessions, all told |
| PathTheorems.FloodIsComplete | netlib_nodeserver.h:279-314 | once nothing is in flight, the nodes that recorded a request are exactly those reached through nodes that do not hold the file |
| PathTheorems.HopCountStays | netlib_nodeserver.h:290-311 | every request packet of every run carries the hop count its search began with |
| PathTheorems.HoldersAreFound | netlib_nodeserver.h:291-345 | then every holder among them was told to serve the originator, and the originator to fetch from it |
| PathTheorems.FindsAreTrue | netlib_nodeserver.h:322-362 | in every run, nobody is told to fetch from a node without the file, nor to serve a node that did not search for it |
| PathProgress.EveryDeliveryCountsDown | netlib_nodeserver.h:277-371 | handling packets cannot go on for ever |
| PathProgress.SearchesComeToRest | netlib_nodeserver.h:277-371 | every run can be continued by handling packets alone until nothing is in flight |
| PathProgress.AnyNumberOfHops | netlib_nodeserver.h:297-302 | for every number there is a run in which a node that many hops away, and not fewer, records a request |
| FileManager.NodeServer.FileReady | netlib_nodeserver.h:400-402 | a slot for the session and the file |
| FileManager.NodeServer.SendBeginFile | netlib_nodeserver.h:404-409 | a slot, and the message that begins the transfer |
| FileManager.NodeServer.RequestNextPiece | netlib_nodeserver.h:425-448 | the next piece is claimed, opened and asked for; or the file is given up; or the timer is set |
| FileManager.NodeServer.FinishRequesting | netlib_nodeserver.h:450-456 | the slot is gone, and the other side is told |
| FileManager.NodeServer.NextBodyPiece | netlib_nodeserver.h:465-481 | a chunk, or the end of the piece |
| FileManager.NodeServer.SendPack | netlib_nodeserver.h:506-510 | up to 128 of them, stopping at the end |
| FileManager.NodeServer.WriteBody | netlib_nodeserver.h:532-534 | the bytes go where the stream is |
| FileManager.NodeServer.UpdateFileManager | netlib_nodeserver.h:483-565 | every file message leads to the state and the messages the model says |
| FileManager.NodeServer.TimerFired | netlib_nodeserver.h:432-440 | the waiting request is tried again |
| FileStreams.OverwriteAt | netlib_nodeserver.h:532-534 | bytes written at a position leave what is before and behind, and zeros in a gap |
| FileStreams.NextChunk | netlib_nodeserver.h:465-481 | the next chunk is the next 1024 bytes of the piece, or all that is left |
| FileStreams.ShortPieceFails | netlib_nodeserver.h:465-481 | when less of a piece is there than its size was, zeros follow it and the stream fails |
| FileStreams.FailedWritesNothing | netlib_nodeserver.h:524-543 | bytes that come to a failed stream change nothing on disk, however many come |
| FileStreams.SecondRequestSendsZeros | netlib_nodeserver.h:493-511 | a second request while a piece is sent makes the stream fail, and the whole pack is zeros |
| FileStreams.FailedSendsZeros | netlib_nodeserver.h:544-556 | and so is every pack after it |
| FileStreams.BodyStopsReading | netlib_nodeserver.h:524-543 | bytes that come while a piece is being sent are written nowhere, and stop the sending |
| FileStreams.ReadyAgainForgetsPiece | netlib_nodeserver.h:400-402 | a slot made again keeps its stream but names piece 0, which the next end of a piece takes in |
| FileStreams.BodyCounts | netlib_nodeserver.h:524-543 | bytes for a closed stream change nothing; others are counted, and the 128th gives a credit back |
| FileStreams.CreditStopsWriting | netlib_nodeserver.h:544-556 | a credit that comes to a session that is writing ends its stream or makes it fail |
| FileAsking.AskingIffNumbered | netlib_nodeserver.h:425-448 | complete: the slot goes and the other side is told; or the first lacking piece is claimed, opened and asked for; or none lacks and the timer is set: one of these exactly when the piece has a number below 65535 |
| FileAsking.SmallIsNumbered | netlib_nodeserver.h:430-431 | it does in every state of a node whose files have at most 65535 pieces |
| FileAsking.TimeoutAsks | netlib_nodeserver.h:432-440 | so it is when the timer fires |
| FileAsking.BeginAsks | netlib_nodeserver.h:485-492 | and when the other side is ready |
| FileAsking.EndAsks | netlib_nodeserver.h:513-523 | and when a piece has come and been taken in |
| FileAsking.WaitingAsksAgain | netlib_nodeserver.h:432-440 | a session that waits asks again when the timer next fires, if no other session or file asks before |
| FileAsking.LaterWaitReplaces | netlib_nodeserver.h:432-440 | but not after another session has come to wait: the timer asks for that one alone, however often it fires |
| FileSafety.EventKeeps | netlib_nodeserver.h:400-583 | whatever any session, user or timer does, streams stay exclusive and pieces had stay verified |
| FileSafety.EndIsSafeWhenAlone | netlib_nodeserver.h:513-523 | the end of a piece keeps that exactly when no other session writes the piece |
| FileSafety.EarlyEndBreaks | netlib_nodeserver.h:513-523 | a run of allowed events after which an end that comes too early puts two streams on one piece |
| FileSafety.EarlyEndSpoils | netlib_nodeserver.h:513-535 | a continuation of it in which a piece that is had no longer matches its record |
| FileSafety.OwnEndIsAllowed | netlib_nodeserver.h:513-523 | the end of a piece from a session that writes the piece it names keeps every guarantee |
| FileSafety.AskingWritesOwn | netlib_nodeserver.h:442-447 | a session that asks for a piece writes the piece it asked for |
| FileSafety.OwnStays | netlib_nodeserver.h:483-565 | and goes on doing so, whatever the other sessions do, until it ends, begins again or gives up |
| FileSafety.ThrowsExactlyWhenMissing | netlib_nodeserver.h:493-505 | a handler throws exactly on a request for a piece that a complete file does not have on disk |
| FileSafety.SafeDoesNotThrow | netlib_nodeserver.h:493-505 | over a piece the file has it never does |
| FileSafety.VerifiedPiecesStay | netlib_nodeserver.h:425-543 | after any allowed events from any sessions every piece had matches its size and hash, and a complete file matches as a whole |
| FileSafety.EventPersists | netlib_nodeserver.h:400-583 | no allowed event, with added texts readable, keeps a record from being read again from disk |
| FileSafety.RestartLosesNothing | modules/netlib_filesystem.h:14-35 | after any such events a node that starts again is safe, has the same records, and has every piece that was had |
| FileSafety.StartIsSafe | modules/netlib_filesystem.h:14-35 | a node that has just started is in such a state |
| Transfer.PackSends | netlib_nodeserver.h:465-481 | what a pack sends is the next bytes of the piece, in chunks, and its end |
| Transfer.StepMoves | netlib_nodeserver.h:425-565 | every message of a download keeps its bytes and its credit in balance, and leaves less to do |
| TransferTheorems.EveryStepCountsDown | netlib_nodeserver.h:425-565 | pieces, then requests, then bytes, then messages: no download goes on for ever |
| TransferTheorems.QuietIsDownloaded | netlib_nodeserver.h:425-565 | nothing is in flight only when every piece is there as the uploader has it, merged and given up by both sides |
| TransferTheorems.DownloadCompletes | netlib_nodeserver.h:425-565 | every run can be continued to that end |
| TransferTheorems.CompleteIsGivenUp | netlib_nodeserver.h:425-456 | a download of a complete file, such as an empty one, only gives it up: nothing is fetched or merged |
| TransferTheorems.FileTravels | netlib_nodeserver.h:575-583 | a file uploaded at one node and added from its text at another arrives there exactly when its length is neither 0 nor a multiple of the piece size; otherwise but for the last piece, or not at all |
| TransferTheorems.FileArrives | netlib_nodeserver.h:575-583 | every file with few enough pieces has such a run to the end, from any two nodes that do not know it |
| TransferTheorems.ChunksInFlight | netlib_nodeserver.h:534-541 | in every state of every run fewer chunks than two packs are on their way |
| TransferTheorems.CreditBound | netlib_nodeserver.h:534-541 | in every run, from one request to the next, no more than a pack and what the counter stood at when the request was taken |
| TransferTheorems.CreditIsConserved | netlib_nodeserver.h:506-554 | in every run, while the uploader reads, chunks on their way, chunks counted and credits on their way make exactly that |
| TransferTheorems.NeverStalls | netlib_nodeserver.h:544-554 | in every run, while the uploader reads, a chunk or a credit is on its way |

## Left out

- Sockets, the asio library, the STUN requests of netlib_natkiller.h, and console output: input and output.
- Threads: the update thread and the io_context thread are one sequence of handlers, and `SafeQueue` is a sequence.
- Clocks: timers fire at any time, requests do not expire, and a session is not closed for silence. `sendResponse` never sets a creation time, so the model has none for responses.
- Header and body datagrams that are paired wrongly: the code pairs them by length only, and does not rule this out.
- Failed writes and closed sockets: a session that disconnects stops taking steps.
- The else branch at the end of `endOfWriting`, which pings and starts the next write: it is never taken, because `send` always sets the flag.
- The connection introducer (`updateConnectManager`): the responder reads a counter that only the requester sets, so its guarantees do not follow from the code.
- A download of several files or from several nodes at once making progress: the count of chunks is one for the whole node, so a credit can go to the wrong session. Safety is proved for any number of sessions.
- Dishonest peers and hash collisions: pieces had before a download are taken to be the uploader's.
- FileSafety.VerifiedPiecesStay: is for files of at most 65535 pieces, because piece numbers are cut to 16 bits and the largest stands for none.
- FileTheorems.UploadVerifies: is for files of fewer than 2^31 pieces, because the count is an `int`.
- An `.info` text without a readable count: the code then uses a variable that was never set, which is a parameter of the model.
- What becomes of a node after a handler has thrown: the model records the exception and lets the node go on.
- Buffering inside file streams: bytes written are on disk at once, and paths given by the user lie outside the data directory.
- PathSearch.PathManager.SendResponse: does not reserve a port for the connection to come, because a node's number stands for its address and port in path messages.
- Invite codes, hexadecimal printing of addresses and the port counter: true, but easy.
