# A verified model of the telemetry platform

The platform has a gateway that takes robot samples from MQTT, stores them in SQLite and broadcasts them over
WebSocket; a browser page that shows them, reconnects after a disconnection and asks for the rows it missed; and an
offline analyser that reconstructs from the page's log what was missed. This project models these three in Dafny and
proves what the platform is for: a disconnection between gateway and page loses nothing that a large enough history
window can bring back, and what the analyser counts in the page's log is what was lost and brought back.

Run `dafny verify dfyconfig.toml`.

## How it is built

Code that changes state is imperative Dafny: classes for the SHA-1 context, sockets, the linked queue, the writer, the
string buffer, the WebSocket server, the database connection and the page; loops over arrays where the source has them.
Each such method is proved against a function or predicate, and the properties are then proved about those. What runs
concurrently is a step system: `Wakeup` (mutex and condition variable), `PipelineSteps` (callbacks, the writer's
statements, readers) and `Platform` (pipeline, server and page together, with ordered sockets between them), with
invariants over every run. `Platform`'s steps are built from the very functions that the classes are proved against:
`Server.Enter`, `Server.Deliver`, the functions of `App`, the steps of `PipelineSteps`, `History.NewestFirst`, and the
request text and its reading in `Requests`.

| files | subject |
|---|---|
| `Bytes`, `Sha1`, `Sha1Example`, `Base64`, `Sockets`, `Frames`, `CStrings`, `Handshake` | the byte level of ws_server.c against FIPS 180-4, RFC 4648 section 4 and RFC 6455 |
| `Intake`, `SampleQueue`, `Wakeup`, `Pipeline`, `PipelineSteps` | the gateway from MQTT callback to broadcast |
| `Requests`, `Server` | history requests; clients, broadcast and the timed cut |
| `StrBuf`, `History`, `Fidelity`, `Migration` | db_sqlite.c |
| `JsonText`, `LiveJson` | what the page is sent, live and as history, as JSON objects |
| `App`, `AppRuns`, `AppPage`, `PageExample`, `Csv` | app.js |
| `Platform`, `PlatformInv`, `Recovery`, `Losses`, `Openings`, `RecoveryExample`, `Baseline` | the whole system over every run |
| `Gaps`, `RecoveryTime` | the offline analyser |
| `LogRows`, `Measured` | the rows in the page's log and what the analyser makes of them, over every run |
| `Basics` | optional values, small arithmetic |

## What the proofs found in the code

- A client is listed before its handshake is answered, so a broadcast in between reaches its socket first, and the page
  can never open that connection: exactly those connections are lost that a broadcast writes to first
  (`Openings.OpensIff`, `Openings.SpoiledHandshake`, `RecoveryExample.SpoilingHappens`).
- The result of COMMIT is ignored. One that fails and leaves its transaction open makes every later BEGIN fail: nothing
  is stored from then on, and nothing else has that effect (`Pipeline.StorageBlockedIff`,
  `Pipeline.StorageBlockedHappens`).
- The writer goes on inserting after a failed INSERT. Where SQLite has rolled the transaction back by itself, later rows
  commit one by one: a batch is visible wholly or not at all if and only if that does not happen
  (`Pipeline.VisibleWhollyOrNot`, `Pipeline.HalfABatchHappens`). `db_rows` counts rows of batches that were rolled back, too.
- Keys longer than 219 characters are hashed without the end of the GUID (`Handshake.HashedWhole`).
- The doubling loop of the string buffer never ends for a request beyond 2^63 bytes (`StrBuf.LoopEndsIff`).
- The page does not tell the close event of an abandoned socket from one of the current socket; a late one ends the
  connection that works, and that is the only way the page ends one by itself (`AppRuns.StaleCloseEndsIff`,
  `AppRuns.StaleCloseHappens`).
- Where the WebSocket constructor throws on a reconnection the page has no timer and no socket left: it stops trying
  until its user acts or an older socket closes, and nothing else makes it stop (`AppRuns.TryingIff`,
  `AppRuns.GivingUpHappens`).
- The results of the appends that join a history answer are not looked at. An answer that counts as a success is whole
  if and only if all rows got texts and every piece was granted memory or stepped over no capacity of the buffer
  (`History.AnswerWholeIff`); else it lacks rows (`History.RowIsLost`) or commas (`History.CommaIsLost`).
- A CSV cell with a carriage return and no quotation mark, comma or line feed is written without quotes, and RFC 4180
  does not allow that (`Csv.ExportRoundTrip`).
- A database file without a version whose table lacks a column of the first schema is migrated with success, and then
  no insert can be prepared: only the motors' columns are added (`Fidelity.PreparesIff`).
- Sequence numbers and tilt states from 2^31 on, and message times from 2^63 on, come back negative on a replay
  (`Fidelity.ReplayFidelity`).
- The analyser's reconstruction is exact if and only if the true step is the most frequent difference, the first met
  among equals (`Gaps.ExactIffModeIsStep`).

## Model

| member | source | states |
|---|---|---|
| `Sha1.Transform` | src/core/ws_server.c:42-89 | one block changes the chaining value as the compression function of FIPS 180-4 section 6.1.2 does |
| `Sha1.RunRounds` | src/core/ws_server.c:60-82 | the eighty rounds in place are the standard's rounds over the message schedule |
| `Sha1.ExpandSchedule` | src/core/ws_server.c:43-52 | the 80 words computed from a block are the standard's message schedule |
| `Sha1.RoundFunctionIsF` | src/core/ws_server.c:60-74 | the code's choice of round function, with OR for Ch and Maj, is the standard's f_t with exclusive or, for every round |
| `Sha1.KIsRoot` | src/core/ws_server.c:62-75 | the four constants are the square roots of 2, 3, 5 and 10 times 2^30, cut to whole numbers |
| `Sha1.ChOr` | src/core/ws_server.c:63 | the OR form of Ch equals the XOR form |
| `Sha1.MajOr` | src/core/ws_server.c:69 | the OR form of Maj equals the XOR form |
| `Sha1.Rol32IsRotate` | src/core/ws_server.c:40 | shift-or-shift is rotation, for the amounts in use |
| `Sha1.Context.constructor` | src/core/ws_server.c:91-99 | a fresh context represents the empty message |
| `Sha1.Context.Update` | src/core/ws_server.c:101-122 | the context then represents the message followed by the new bytes: state, buffer and bit count agree with it |
| `Sha1.Context.CompressWholeBlocks` | src/core/ws_server.c:108-116 | all whole blocks are compressed and fewer than 64 bytes are left over |
| `Sha1.Context.Final` | src/core/ws_server.c:124-148 | the output is the FIPS 180-4 digest of everything passed to update, for messages under 2^61 bytes |
| `Sha1.PaddingIsMinimal` | src/core/ws_server.c:124-148 | the padding completes a block with the least number of zero bytes |
| `Sha1.OctetsRoundTrip` | src/core/ws_server.c:142-147 | a word written as four octets reads back |
| `Sha1.DigestOfChunks` | src/core/ws_server.c:91-148 | for every way to cut a message into update calls the digest is the standard's digest of the whole |
| `Sha1Example.DigestOfAbc` | src/core/ws_server.c:42-150 | the digest of "abc" is the one of FIPS 180-4, followed through all eighty rounds |
| `Base64.Base64Encode` | src/core/ws_server.c:152-177 | fails exactly when text and NUL do not fit, then leaving the output alone; else writes the RFC 4648 encoding and a NUL and returns its length |
| `Base64.EncodedLength` | src/core/ws_server.c:152-177 | the text has 4·⌈n/3⌉ characters |
| `Base64.DecodeEncode` | src/core/ws_server.c:152-177 | a strict decoder of RFC 4648 section 4 gets the input back |
| `Base64.Section10` | src/core/ws_server.c:152-178 | the test vectors of section 10 of RFC 4648 |
| `Base64.EncodedCharacters` | src/core/ws_server.c:153-172 | the text holds no white space, control character or other byte that could break a header line |
| `Base64.ValueOfSymbol` | src/core/ws_server.c:153-154 | each of the 64 characters stands for its own value: the table has no repetition |
| `Sockets.Socket.RecvAll` | src/core/ws_server.c:224-237 | however recv cuts or interrupts, success delivers exactly the next n bytes, and without socket errors it fails only on a short stream |
| `Sockets.Socket.SendAll` | src/core/ws_server.c:239-251 | however send cuts or interrupts, success puts out exactly the data, and failure a prefix of it |
| `Frames.MaskTwice` | src/core/ws_server.c:389-393 | masking with the same key twice gives the payload back |
| `Frames.Unmask` | src/core/ws_server.c:389-393 | afterwards each bit of the payload is set exactly where one of the bits of the byte received and of the key byte at its place modulo four was |
| `Frames.ParseEncode` | src/core/ws_server.c:352-405 | every frame of RFC 6455 section 5.2, masked or not, in every length form that fits, parses to its opcode and payload whatever follows |
| `Frames.ParseSound` | src/core/ws_server.c:352-405 | nothing else parses: what is accepted is the encoding of some frame |
| `Frames.RecvLength` | src/core/ws_server.c:363-372 | the 7-, 16- and 64-bit lengths are read in network order |
| `Frames.RecvPayload` | src/core/ws_server.c:376-399 | key and payload are consumed exactly, the payload is unmasked bit by bit and followed by a NUL |
| `Frames.RecvFrame` | src/core/ws_server.c:352-405 | consumes exactly the frame at the head of the stream; the opcode is the low half of the first byte, the payload has the length that follows in none, two or eight bytes, and is as received or unmasked bit by bit; without faults it fails exactly where the parser has no answer |
| `Frames.XorBit` | src/core/ws_server.c:389-393 | a bit of the exclusive or is set where exactly one of the two bits is |
| `Frames.ExamplesParse` | src/core/ws_server.c:352-405 | section 5.7 of RFC 6455: the masked and the unmasked "Hello", ping and pong are read as shown |
| `Frames.ExamplesEncode` | src/core/ws_server.c:317-343 | section 5.7 of RFC 6455: "Hello" as sent, and the headers of 256 and 65536 bytes |
| `Frames.RecvStream` | src/core/ws_server.c:352-405 | successive reads return exactly the frames sent and stop right behind them, for every splitting by recv |
| `Frames.SendText` | src/core/ws_server.c:317-340 | puts out the encoding of the message as one unmasked text frame, or on failure a prefix of it |
| `Frames.TextHeader` | src/core/ws_server.c:318-335 | the header is FIN and text with the minimal length form |
| `Frames.MinimalFormIsMinimal` | src/core/ws_server.c:322-335 | no shorter form could carry the length, as RFC 6455 section 5.2 demands |
| `Frames.TextRoundTrip` | src/core/ws_server.c:317-340 | what is sent decodes to the message and its bytes are all used |
| `Handshake.ReadHttpRequest` | src/core/ws_server.c:281-299 | succeeds, for every splitting, exactly when a blank line lies within the first 8191 bytes, and returns a NUL-terminated prefix of the stream that shows it |
| `CStrings.CStringStops` | src/core/ws_server.c:281-299 | what strstr sees of a buffer ends at its first NUL |
| `Handshake.FindHeaderValue` | src/core/ws_server.c:261-279 | finds the first line, up to the blank line, whose name is the one given but for the case of letters, with a colon behind it and something more; the value is what follows less leading blanks and tabs |
| `Handshake.MatchesIff` | src/core/ws_server.c:253-272 | a line is taken exactly if each character of its name equals the name's or differs in the case of a letter only |
| `Handshake.TrimLeftIsValue` | src/core/ws_server.c:272-275 | the value begins at the first character that is no space or tab |
| `Handshake.HeaderValueLocal` | src/core/ws_server.c:261-279 | bytes after the blank line never matter |
| `Handshake.HeaderValueOfBlock` | src/core/ws_server.c:261-279 | in a block built from lines the first header line of that name, in whatever case, is found, and none if there is none |
| `Handshake.HashedWhole` | src/core/ws_server.c:301-303 | the key is hashed with the whole GUID exactly for keys of at most 219 characters, else with what 255 characters hold |
| `Handshake.OctetsAre` | src/core/ws_server.c:305-307 | what is hashed is the text, each character as the octet of its value |
| `Handshake.BytesAre` | src/core/ws_server.c:308-311 | what is encoded is the digest, byte by byte |
| `Handshake.ComputeAcceptKey` | src/core/ws_server.c:301-313 | the accept key is base64 of the SHA-1 digest of what the 256-byte buffer holds |
| `Handshake.WsHandshake` | src/core/ws_server.c:503-531 | outcome and response depend on the stream alone, not on how recv cuts it |
| `Handshake.ReplyFromBuffer` | src/core/ws_server.c:503-519 | whatever part of the stream was read past the blank line, request check and key lookup give the same |
| `Handshake.HandshakeCorrect` | src/core/ws_server.c:503-531 | every request of lines that fits is answered with base64(SHA-1(key ++ GUID)) (RFC 6455 section 4.2.2), where the key is the value of the first Sec-WebSocket-Key line in whatever case, less leading blanks, of 1 to 219 characters; and is answered with 101 only if it starts with GET and has such a key |
| `Handshake.LongRequestRefused` | src/core/ws_server.c:281-299 | a request whose end lies beyond the first 8191 bytes is not answered |
| `Handshake.ResponseIs` | src/core/ws_server.c:516-524 | the four lines of the response |
| `Handshake.KeyLength` | src/core/ws_server.c:516-527 | every accept key has 28 characters, so the response always fits its 256-byte buffer |
| `Handshake.ClientFindsKey` | src/core/ws_server.c:516-524 | the response is a well-formed header block: a client that looks the accept header up in it finds exactly the key, and the block ends where the response does |
| `Intake.Gateway.OnMessage` | src/core/telemetry_gateway.c:318-402 | counts messages and bytes on the topic while running; a decoded one that finds memory adds exactly one sample to the queue, which holds the message field by field: vectors, motors, numbers and times in their places, zeros for what was left out, ids cut to their fields or their own defaults; any other adds none |
| `Intake.QueuedHolds` | src/core/telemetry_gateway.c:318-402 | the same for the specification: which delivery queues what |
| `Intake.EveryMessageAccountedFor` | src/core/telemetry_gateway.c:318-402 | over any deliveries, messages counted = queued + not decodable + without memory |
| `Intake.CopyIsFaithful` | src/core/telemetry_gateway.c:83-88 | a copied text is never empty and fits its field with the NUL; it is the sender's exactly if that is not empty and fits |
| `Intake.QueuedShowsMotors` | src/core/telemetry_gateway.c:336-399 | every queued sample has all its texts, so its stored row always shows the motors |
| `Intake.MessageReplaysFaithfully` | src/core/telemetry_gateway.c:349-353 | from MQTT message to page: replayed text equals live text if and only if the message's unsigned numbers fit the signed columns |
| `SampleQueue.Queue.Push` | src/core/telemetry_gateway.c:139-156 | the list stays one acyclic chain with right head, tail and length; the sample is appended, or dropped when there is no node; the maximum is the historical one |
| `SampleQueue.Queue.PopBatch` | src/core/telemetry_gateway.c:165-177 | takes the longest prefix of at most max samples, in order, and leaves the rest |
| `SampleQueue.Queue.PopHead` | src/core/telemetry_gateway.c:166-173 | unlinks exactly the head, and the tail with the last node |
| `Wakeup.InvPreserved` | src/core/telemetry_gateway.c:139-177 | every step of every thread keeps the relation of mutex, condition variable, queue and stop |
| `Wakeup.NoLostWakeup` | src/core/telemetry_gateway.c:139-163 | in every interleaving a writer asleep and not woken has no work, or the callback that linked some signals before it releases the mutex; and stop has not broadcast |
| `Wakeup.MutualExclusion` | src/core/telemetry_gateway.c:147-155 | no two threads are in the queue's critical sections at once |
| `Wakeup.StopBringsWriterNearer` | src/core/telemetry_gateway.c:473-482 | once stop was called no step sets the writer back, and each step of its own brings it nearer to its end |
| `Wakeup.WriterNeverStuck` | src/core/telemetry_gateway.c:473-482 | after stop has broadcast, the writer can move, or the holder of the mutex can towards its release |
| `Wakeup.StopBoundsRun` | src/core/telemetry_gateway.c:473-482 | from the call of stop on, a run has at most as many steps, of all threads and with spurious wake-ups, as a rank counts that is known at that moment |
| `Wakeup.StopEndsDone` | src/core/telemetry_gateway.c:473-483 | and it can only end with the writer done and the mutex free: the join returns |
| `Pipeline.Writer.Turn` | src/core/telemetry_gateway.c:188-230 | a batch is stored, counted and broadcast, or dropped when BEGIN fails, for every combination of answers of the database |
| `Pipeline.EncodedIs` | src/core/telemetry_gateway.c:222-230 | what is broadcast of a batch is its samples in order, less those whose text found no memory |
| `Pipeline.VisibleWhollyOrNot` | src/core/telemetry_gateway.c:196-211 | a batch becomes visible wholly or not at all if and only if no INSERT succeeds after SQLite rolled the transaction back |
| `Pipeline.HalfABatchHappens` | src/core/telemetry_gateway.c:196-211 | a batch of two of which only the second sample is visible |
| `Pipeline.StoredIffAllSucceed` | src/core/telemetry_gateway.c:196-211 | a batch is stored exactly when every statement of its transaction succeeds |
| `Pipeline.OpenTransactionBlocksAll` | src/core/telemetry_gateway.c:196-211 | once a transaction is open, no later batch is ever stored |
| `Pipeline.StorageBlockedIff` | src/core/telemetry_gateway.c:196-211 | after any history of batches nothing is ever stored again if and only if the COMMIT of some batch, all inserted, failed and left its transaction open |
| `Pipeline.StorageBlockedHappens` | src/core/telemetry_gateway.c:196-211 | one batch after which nothing is ever stored again |
| `Pipeline.InsertsThroughAbort` | src/core/telemetry_gateway.c:203-208 | rows show before the end of the transaction only after an abort, and then never all of the batch |
| `PipelineSteps.Conservation` | src/core/telemetry_gateway.c:139-230 | in every reachable state the pushed samples are the finished batches, the batch in hand and the queue, in order, and db_rows counts the samples of batches whose BEGIN succeeded |
| `PipelineSteps.SentWithinStoredWithinPushed` | src/core/telemetry_gateway.c:188-230 | where the database steps succeed, what was broadcast is a prefix of the committed rows, which are a prefix of what was pushed, at every moment |
| `PipelineSteps.TurnIsItsSteps` | src/core/telemetry_gateway.c:188-230 | the imperative turn and the step system agree on database, counters and samples sent |
| `Requests.JsonFindInt` | src/core/ws_server.c:533-553 | reads the signed number after the first colon behind the key, stopping past a million, or the default |
| `Requests.FindIntFits` | src/core/ws_server.c:545-552 | whatever text arrives, the number read fits in an int: the cast changes nothing |
| `Requests.RequestRoundTrip` | ui/app.js:707-708 | the number the page asks for is the number the server reads, for all up to a million, a larger one is read as more than a million, and the text is taken for a history request |
| `Requests.RequestFor2000` | ui/app.js:707-708 | the request text for 2000 rows, letter by letter |
| `Requests.DigitsSay` | ui/app.js:707-708 | the digits printed say the number, without a zero in front |
| `Requests.DecimalSays` | src/core/telemetry_gateway.c:90-137 | a number below zero is printed as a minus and the digits of its opposite |
| `Requests.NumberIsRead` | src/core/ws_server.c:541-552 | white space in front does not matter, a number up to a million is read exactly, and as negative behind a minus |
| `Requests.KeyedNumberIsRead` | src/core/ws_server.c:533-552 | the number read is the one behind the first colon behind the first occurrence of the key |
| `Requests.NoNumberIsRead` | src/core/ws_server.c:541-546 | anything else there gives the default |
| `Requests.TakenForHistoryIff` | src/core/ws_server.c:555-563 | a text is a history request exactly if "history" stands behind the quoted, or else the bare, word type |
| `Server.CutIsOneStretch` | src/core/ws_server.c:445-456 | in every run with a monotonic clock the cut is one stretch: between two suppressed calls every call is suppressed, and the two are less than the configured duration apart |
| `Server.SuppressedIff` | src/core/ws_server.c:445-456 | in every run a call is suppressed if and only if a cut is configured and the time since the first client's handshake is at least cut_start_s and below cut_start_s + cut_duration_s seconds |
| `Server.WsServer.CloseAllClients` | src/core/ws_server.c:476-488 | afterwards no client is alive |
| `Server.WsServer.BroadcastEnter` | src/core/ws_server.c:813-846 | sends nothing yet; suppresses exactly while a cut is configured, the clock is anchored and the time since lies between start and start plus duration, drops exactly by the configured percentage, forwards with a delay within the jitter; raises exactly the counter of its verdict; only a suppressed call in close mode closes connections, then all of them |
| `Server.WsServer.AnchorExperiment` | src/core/ws_server.c:580-586 | the first client's handshake anchors the clock, later ones leave it |
| `Server.WsServer.BroadcastDeliver` | src/core/ws_server.c:848-871 | every client alive gets the message once, one whose send fails dies, and the list is then exactly those alive |
| `Server.KeepJoin` | src/core/ws_server.c:848-871 | the clients that stay keep their order in the list |
| `Server.WsServer.ClientRemove` | src/core/ws_server.c:490-501 | the client leaves the list, the others stay in order, the server stays valid |
| `Server.CallsAreCounted` | src/core/ws_server.c:813-846 | in every run calls = cut + dropped + forwarded, and delayed are at most the forwarded |
| `Server.CloseAllAtMostOnce` | src/core/ws_server.c:818-832 | with a monotonic clock the clients are all closed at most once per run, though the flag is reset after the window |
| `Server.DelayRange` | src/core/ws_server.c:464-474 | a forwarded message can get exactly the delays within the jitter of the configured one, none negative |
| `StrBuf.LoopEndsIff` | src/core/db_sqlite.c:16-17 | in size_t arithmetic the doubling loop reaches a request if and only if it is at most 2^63 |
| `StrBuf.Buffer.Reserve` | src/core/db_sqlite.c:14-23 | fails exactly if it must grow and is refused memory; the capacity stays as it is where it suffices and on failure, and else becomes what `CapacityIsLeast` describes; contents are kept, failure changes nothing |
| `StrBuf.CapacityIsLeast` | src/core/db_sqlite.c:15-17 | the capacity reached is the least 1024·2^j that suffices and is no smaller than before: unchanged, 1024, or below twice the need |
| `StrBuf.GrowsIffCrosses` | src/core/db_sqlite.c:15-17 | a buffer no larger than it must be has to grow for `n` more bytes if and only if some 1024·2^j lies among len+1 .. len+n |
| `StrBuf.Buffer.Append` | src/core/db_sqlite.c:25-32 | the text grows by the string and ends in a NUL; failure changes nothing |
| `StrBuf.Buffer.Appendf` | src/core/db_sqlite.c:34-58 | a formatted text is appended whole, by way of the 512 bytes on the stack or of memory of its own; a failing format, a refused memory or a refused growth changes nothing |
| `StrBuf.AppendAll` | src/core/db_sqlite.c:14-58 | after any plain and formatted appends the buffer is their concatenation, and all memory ever requested is less than twice the final capacity |
| `History.NewestAreLast` | src/core/db_sqlite.c:431-446 | with increasing receive times the query can only answer the last rows, newest first |
| `History.NothingLostIff` | src/core/db_sqlite.c:475-481 | of any pieces appended to a buffer no larger than it must be none is lost if and only if each is granted memory or steps over no capacity where it comes to stand; the buffer then is again no larger than it must be |
| `History.AppendBackwards` | src/core/db_sqlite.c:475-481 | the rows array walked backwards appends the items oldest first with commas between them; for all memory granted it is determined which appends are left out; on a buffer no larger than it must be, and for items that are not empty, the text is the whole join if and only if each piece is granted memory or steps over no capacity |
| `History.HistoryLastJson` | src/core/db_sqlite.c:426-493 | for every way memory is granted, the exact result: which error, or prefix, kept pieces and suffix for the newest rows that got texts; for row texts that are not empty a success is the comma-join of all rows answered, oldest first, if and only if `AnswerWholeIff`'s condition on the grants holds |
| `History.AnswerWholeIff` | src/core/db_sqlite.c:457-488 | for row texts that are not empty, the text sent is the history text of the rows answered if and only if all rows got texts and each piece is granted memory or steps over no capacity behind the prefix and the pieces before it |
| `History.RowIsLost` | src/core/db_sqlite.c:475-481 | a case in which it is not: one row too long for the first 1024 bytes, its memory refused, and the answer sent is the history of no rows |
| `History.CommaIsLost` | src/core/db_sqlite.c:475-481 | another: memory refused for a comma only, and two rows run into each other |
| `History.HistoryWindow` | src/core/db_sqlite.c:426-493 | min(limit, rows) items in ascending receive time, and no row left out is newer than one included |
| `History.ItemsAreSuffix` | src/core/db_sqlite.c:426-493 | with increasing receive times the items are the last rows in the order stored |
| `Fidelity.InsertState` | src/core/db_sqlite.c:244-329 | bound by position, every field of the sample arrives in the column of its name |
| `Fidelity.PreparesIff` | src/core/db_sqlite.c:126-184 | after a migration that succeeded the insert statement finds all its columns if and only if the file was new or its old table had every column but the motors' |
| `Fidelity.SelectStored` | src/core/db_sqlite.c:431-439 | the 28 columns read are the thirty written less topic and raw bytes, in the same order |
| `Fidelity.AppendRow` | src/core/db_sqlite.c:350-424 | appends the row's JSON, with the motors when either has an id |
| `Fidelity.LiveIsMerged` | src/core/telemetry_gateway.c:95-105 | the live format is the three replay formats one after the other |
| `Fidelity.ReplayFidelity` | src/core/telemetry_gateway.c:90-137 | the JSON of a replayed sample equals its live JSON if and only if sequence number and tilt status are below 2^31 and the message time below 2^63 |
| `Fidelity.HistoryIsLiveTexts` | src/core/db_sqlite.c:426-493 | a history answer carries the live texts of the last samples, in order |
| `LiveJson.LiveIsObject` | src/core/telemetry_gateway.c:90-137 | the live text is one JSON object with every field of the sample as the value of its name, and the receive time in seconds |
| `LiveJson.RowIsObject` | src/core/db_sqlite.c:350-424 | the text of any row, also one from before the motors, is one JSON object with every column as the value of its name, NULL as zero or empty, and motors if either has an id |
| `LiveJson.HistoryIsObject` | src/core/db_sqlite.c:449-488 | the history text is one JSON object whose items are the rows' objects in order |
| `LiveJson.AnswerIsObjects` | src/core/db_sqlite.c:426-493 | the answer for stored samples that fit their columns is that object with the last samples, in the order stored, each as it was sent live |
| `Migration.Connection.EnsureColumn` | src/core/db_sqlite.c:99-117 | the column is added exactly if it is missing |
| `Migration.Connection.DbMigrateV2` | src/core/db_sqlite.c:126-184 | from version 0, stopped anywhere: the file stays good, old columns stay in place, success is version 2, and with statements to spare it succeeds |
| `Migration.Connection.DbUpgradeV1ToV2` | src/core/db_sqlite.c:186-211 | the same from version 1 |
| `Migration.Connection.DbEnsureSchema` | src/core/db_sqlite.c:214-232 | the same from every version known; an unknown one is refused and the file left as it is |
| `Migration.EnsureSchemaSafe` | src/core/db_sqlite.c:126-232 | stopped after any number of statements, it leaves every old column in place, none twice, and version 2 recorded only with all motor columns there |
| `Migration.RestartableMigration` | src/core/db_sqlite.c:126-232 | however often and wherever it was stopped, a run that is let finish reaches version 2 with all motor columns exactly once and nothing lost; further runs change nothing |
| `Migration.CompletesIff` | src/core/db_sqlite.c:99-232 | let finish, it succeeds exactly for version 2, for version 1 with a table, and for version 0 whose table, if any, has the indexed columns |
| `Migration.ColumnsAfter` | src/core/db_sqlite.c:126-232 | after a run that succeeds the table has the columns it had, or those of the schema if it is new, and the motors', and no others |
| `AppPage.Page.DoConnect` | ui/app.js:596-620 | the page stays valid (one timer, one live socket, the newest 500 samples, replay rows as announced); a new socket is the only live one, no timer is set; a manual connect empties log and buffer, a reconnection keeps them |
| `AppPage.Page.DoDisconnect` | ui/app.js:678-688 | afterwards no socket is connecting or open and no timer is set |
| `AppPage.Page.DoScheduleReconnect` | ui/app.js:558-568 | unless the user disconnected exactly one timer is set, the recorded one, and the attempt is counted if it is new |
| `AppPage.Page.WhenTimerFires` | ui/app.js:563-567 | the page means to ask for history, has a new socket connecting and no timer, and keeps log and buffer |
| `AppPage.Page.RequestHistoryNow` | ui/app.js:696-710 | asks exactly if Last N names rows and a socket is open: for the whole part of Last N, at most 5000, on the current socket, and logs that number; else leaves the page as it is |
| `App.RequestedIsNamed` | ui/app.js:690-694 | the number asked for is nothing for no number or none above zero, else the whole part, 5000 at most |
| `AppPage.Page.WhenOpen` | ui/app.js:622-636 | no timer is left, and history is asked for exactly if the connection is a recovery, Last N names rows and a socket is open |
| `AppPage.Page.WhenClosed` | ui/app.js:638-646 | the close is logged and exactly one timer set, none after a manual disconnect |
| `AppPage.Page.DoHandleTelemetry` | ui/app.js:482-525 | a paused page ignores the sample; else it is pushed, one live row is logged with its distance from the last id, and the recovery is over |
| `AppPage.Page.DoHandleHistory` | ui/app.js:527-556 | the telemetry items are pushed in order, as many replay rows are logged, and the batch row announces that number |
| `AppPage.Page.PushOne` | ui/app.js:437-442 | the buffer is the end of what was pushed, at most 500 samples |
| `AppPage.Page.WhenMessage` | ui/app.js:654-675 | no message touches sockets, timers or requests; a history message ends the recovery |
| `AppPage.Page.Handle` | ui/app.js:596-764 | every event keeps the page valid and is a step of the runs below |
| `AppPage.Play` | ui/app.js:596-764 | the object plays every run, so what is proved of runs holds of it |
| `AppRuns.ReplayItemsEffect` | ui/app.js:527-556 | a batch pushes its samples in order, adds as many replay rows as it announces, and touches nothing else |
| `AppRuns.UiInvariant` | ui/app.js:437-688 | in every run: at most one timer, the recorded one; at most one live socket, the current one; the buffer is the last 500 samples pushed since the reset; replay rows in the log equal the sum of the batch counts |
| `AppRuns.NoReconnectAfterDisconnect` | ui/app.js:678-688 | after a manual disconnect no connection is attempted, through any events, until the user connects |
| `AppRuns.RecoveryAsks` | ui/app.js:563-636 | in every run, when the socket of a reconnection opens, whatever happened since the timer fired, the page asks on it for the whole part of Last N, at most 5000, and for none when it is no number or not above zero |
| `AppRuns.GapsTelescope` | ui/app.js:492-518 | between any two moments of a run, through closes, reconnections, replays and pauses, the logged gaps grow at least as much as the last live id, and just as much if and only if no live id went back |
| `AppRuns.CloseSetsTimer` | ui/app.js:638-646 | on a working connection exactly a close event, of whatever socket, sets the timer |
| `AppRuns.StaleCloseEndsIff` | ui/app.js:558-646 | in every run, from its opening on and left alone by user and server, a connection gets a timer that ends it if and only if a close event of another socket has come since |
| `AppRuns.StaleCloseHappens` | ui/app.js:596-646 | a run in which it does |
| `AppRuns.TryingStep` | ui/app.js:558-688 | a constructor that throws ends every attempt, a close event, a connect or a disconnect starts anew, and nothing else changes whether the page is trying |
| `AppRuns.TryingIff` | ui/app.js:558-688 | in every run the page has a timer, a socket not closed or its user's disconnect if and only if one of those events started it and no constructor has thrown since |
| `AppRuns.GivingUpHappens` | ui/app.js:563-617 | a run in which the reconnection's constructor throws; then only the user can act |
| `AppRuns.NothingAsked` | ui/app.js:690-702 | with Last N below one, or no number, no event sends a request |
| `Csv.ExportRoundTrip` | ui/app.js:336-354 | a reader of RFC 4180 gets back the header and exactly the original cells if and only if no cell has a carriage return without a quotation mark, comma or line feed |
| `Csv.ReadCell` | ui/app.js:336-343 | an escaped cell reads back as its text, with quotes, commas and line feeds in it |
| `Recovery.InvHolds` | src/core/ws_server.c:565-701 | in every run of the whole system: rows are committed before they are broadcast, every client alive got every forwarded sample since it was listed, every query is answered with its window, and the page holds exactly what it was sent |
| `Recovery.CompleteFromWindow` | src/core/ws_server.c:628-642 | from the low end of its window on, a query whose connection is up misses nothing: the window comes with the reply, everything later comes live |
| `Recovery.GapFreeRecovery` | src/core/telemetry_gateway.c:188-230 | over every run: if the page had everything up to k before the disconnection, and its query reaches back to k, then every sample broadcast is with the page or on its way, unless swallowed after the query |
| `Recovery.NothingMissing` | ui/app.js:622-636 | and once the connection is read to its end and nothing was thrown away, live and replayed samples in the page's log together are every sample broadcast |
| `RecoveryExample.RecoveryHappens` | src/core/ws_server.c:565-701 | a run with everything in it: a sample held live, the connection lost, a sample broadcast to nobody, the timer, the new connection's query, and both samples in the log at the end |
| `Recovery.HeldExactly` | src/core/db_sqlite.c:426-493 | the page was given a sample if and only if it came live or lies in the window of a query whose reply was read |
| `Losses.LostExactly` | src/core/db_sqlite.c:426-493 | in every run with one query, read to its end: the samples lacking are exactly those from k to the low end of the window that did not come live |
| `Losses.WithheldReachesNobody` | src/core/ws_server.c:818-838 | in every run a withheld sample is never on any client's wire nor about to be |
| `Losses.CutReachesNobody` | src/core/ws_server.c:818-838 | a sample whose broadcast call enters during the cut, or is dropped, reaches no client live, then or later in the run |
| `Losses.WithheldIff` | src/core/ws_server.c:818-838 | a broadcast withholds its sample if and only if it enters during the cut or is picked by the drop setting, and nothing else withholds any |
| `Recovery.DiscardedOnlyBy` | ui/app.js:482-483 | the page gives samples up only when its user pauses, clears or connects anew |
| `Recovery.LimitIsAsked` | src/core/ws_server.c:628-636 | request text, number lookup and clamping together: the query's limit is what was asked for, at most 5000, and 300 for none |
| `Recovery.QueriesAreAsked` | src/core/ws_server.c:628-636 | in every run each query asks for exactly the number some request of the page named |
| `Recovery.QueriesWereNamed` | ui/app.js:690-708 | from the input field to the database: in every run the limit of each query is the number of rows, 1 to 5000, that Last N named at some moment before |
| `Openings.OpensIff` | src/core/ws_server.c:565-701 | in every run a connection on which something was sent starts with the handshake, and can be opened, if and only if no broadcast wrote to it before its handshake was answered |
| `Openings.FirstFrame` | src/core/ws_server.c:685-701 | the first frame on a connection is the handshake's, or that of a broadcast to a client listed and not yet answered |
| `Openings.SpoiledHandshake` | src/core/ws_server.c:565-578 | a connection written to before its handshake was answered is never opened, at any moment of the run |
| `RecoveryExample.SpoilingHappens` | src/core/ws_server.c:685-701 | a run in which it happens |
| `Baseline.BaselinePurity` | ui/app.js:690-710 | with Last N held at zero, through any reconnects, clicks and messages in flight, no history request, loaded batch or replay row ever enters the log |
| `Gaps.InferNominalSeqStep` | experiments/disconnect_replay_rate_sweep/analyze_rate_sweep_with_baseline.py:217-230 | the most frequent positive difference, the first met among equals; 1 without one |
| `Gaps.MostCommon` | experiments/disconnect_replay_rate_sweep/analyze_rate_sweep_with_baseline.py:229-230 | Counter.most_common(1) is the first mode |
| `Gaps.RoundIsNearest` | experiments/disconnect_replay_rate_sweep/analyze_rate_sweep_with_baseline.py:241-242 | the rounding is to the nearest integer and to the even one of two |
| `Gaps.ComputeMissingRangesWithStep` | experiments/disconnect_replay_rate_sweep/analyze_rate_sweep_with_baseline.py:233-248 | one range for each gap that rounds to more than one step |
| `Gaps.ExpandMissingExpectedValues` | experiments/disconnect_replay_rate_sweep/analyze_rate_sweep_with_baseline.py:251-258 | the union of the progressions of the ranges |
| `Gaps.GapInside` | experiments/disconnect_replay_rate_sweep/analyze_rate_sweep_with_baseline.py:239-246 | despite rounding, a range lies strictly between the two live ids, begins a step behind the first, and has as many ids as it counts: one less than the nearest number of steps |
| `Gaps.NoGap` | experiments/disconnect_replay_rate_sweep/analyze_rate_sweep_with_baseline.py:239-246 | there is no range exactly where the two ids are less than one and a half steps apart |
| `Gaps.GapAccounting` | experiments/disconnect_replay_rate_sweep/analyze_rate_sweep_with_baseline.py:233-258 | for every increasing ids and step: ranges ordered and disjoint, no live id expanded, set size = sum of counts |
| `Gaps.ExactForTrueStep` | experiments/disconnect_replay_rate_sweep/analyze_rate_sweep_with_baseline.py:233-258 | with the true step the expanded set is exactly the progression less the live ids |
| `Gaps.ExactIffModeIsStep` | experiments/disconnect_replay_rate_sweep/analyze_rate_sweep_with_baseline.py:217-258 | with the inferred step it is so if and only if the true step is the first mode of the differences |
| `Gaps.MajorityIsFirstMode` | experiments/disconnect_replay_rate_sweep/analyze_rate_sweep_with_baseline.py:217-230 | which holds when the steps taken outnumber the gaps |
| `Gaps.MissingExpected` | experiments/disconnect_replay_rate_sweep/analyze_rate_sweep_with_baseline.py:336-341 | the analyser's chain of inferring, ranging and expanding has the same condition for exactness |
| `Gaps.RecoveryAccounting` | experiments/disconnect_replay_rate_sweep/analyze_rate_sweep_with_baseline.py:343-352 | recovered + unrecovered = missing, recovered is the number of missing ids among the replayed, the ratio is their quotient, in [0,1], and 1 exactly if something was missing and the replay has all of it; the baseline recovers nothing |
| `LogRows.WrittenHolds` | ui/app.js:482-556 | in every run the live rows of the log show exactly the samples the page read live, less those given up, and the replay rows those it read in replies |
| `LogRows.RowsInOrderHolds` | ui/app.js:482-525 | in every run, across reconnections, the live rows are in the order of broadcast, and so is all the page can still receive |
| `Measured.LogTellsTruth` | experiments/disconnect_replay_rate_sweep/analyze_rate_sweep_with_baseline.py:333-343 | in every run in which the user gave nothing up and ids step regularly: the progression between the live rows, less them, is exactly the broadcast samples that did not come live though an earlier and a later one did, and the replay rows have exactly those of them that the page holds |
| `Measured.AnalyseRun` | experiments/disconnect_replay_rate_sweep/analyze_rate_sweep_with_baseline.py:333-352 | from the log of any such run the analyser finds exactly the missed samples if and only if the true step is the first mode; then recovered and unrecovered count those the page holds and those it lacks, and the ratio is 1 exactly if something was missed and nothing is lacking |
| `Measured.RecoveryScoresOne` | experiments/disconnect_replay_rate_sweep/analyze_rate_sweep_with_baseline.py:343-352 | in every run under the conditions of gap-free recovery nothing stays missing |
| `RecoveryTime.PlannedDisconnectPair` | experiments/disconnect_replay_rate_sweep/analyze_rate_sweep_with_baseline.py:261-292 | among all close and next open pairs of positive duration the one closest to the plan, the first of equals; an index error exactly where a close is followed by opens without a time |
| `RecoveryTime.ComputeRecoveryTime` | experiments/disconnect_replay_rate_sweep/analyze_rate_sweep_with_baseline.py:295-312 | the time from that open to the first live sample not before it, never negative, none if there is no such sample |
| `RecoveryTime.ClosestUnique` | experiments/disconnect_replay_rate_sweep/analyze_rate_sweep_with_baseline.py:288-292 | the choice is one pair |
| `RecoveryTime.RecoveryTimeUnique` | experiments/disconnect_replay_rate_sweep/analyze_rate_sweep_with_baseline.py:304-312 | and the recovery time after it one number |

## Left out

- MQTT, sockets, threads and SQLite themselves: `recv` and `send` are finite schedules of cuts, interrupts and errors, the mutex and condition variable are guards of steps, the database is a sequence of committed rows and a list of columns.
- A socket's schedule is finite: a peer that interrupts for ever is not modelled.
- The wire format of protobuf messages: `Intake` starts from the decoded message; `robot__v1__telemetry_state__unpack` is not part of this model.
- When a client object is freed, and bytes of two senders interleaved on one socket: a client is an id, and each text sent is one frame.
- Control frames (ping, pong, close) sent by the server, and fragmented messages: the reader passes FIN and the reserved bits over, as the code does.
- Receive clocks that stand still or go back, but for `History.HistoryWindow`, which allows equal receive times.
- Recovery.GapFreeRecovery: assumes that every database step succeeds and receive times increase, as `Platform` does throughout; `Pipeline` and `PipelineSteps` model the failures.
- The page in `Platform` is one browser page; the other clients of the server are not modelled there, and `Server` has any number.
- Out-of-order and wrapping sequence ids in the exactness theorems, and NaN.
- Measured.AnalyseRun: takes the rows in the order of the log, which the analyser's sort by wall time may change among rows of the same millisecond.
- Ids that break the JSON text: robot ids are printed with `%s`, so one with a quotation mark, a backslash or a control character makes a live text, and every history answer with it, unreadable for the page. `Platform` takes every frame as readable, that is, it assumes ids without these characters.
- LiveJson.RowIsObject: takes whole numbers within what `sqlite3_column_int` and `sqlite3_column_int64` return for them; the writer stores no others.
- Formatting with `%.6f`, a parameter of `Fidelity`, and the rounding of floats: floats are stored unchanged, and the analyser's quotients are exact, which they are for 32-bit ids.
- SQLite's column names that differ in case only, and its conversions between types; columns hold the types they were written with.
- History.HistoryLastJson: assumes that the answer stays under 2^63 bytes; a row's own text is got or not got as a whole, and `Fidelity.AppendRow` assumes that it is got.
- Frames.RecvFrame: assumes memory for the payload; `Frames.SendText` takes messages under 2^63 bytes.
- Rendering, charts, staleness, the texts of notes and run tags in the page; wall clocks in its log.
- The statistics thread and the durations it reports; `telemetry_cache.c`, `pack_le.h`, `time_utils.h` and the sensors.
- `scripts/analyze_ui_logs_with_latex.py`, which repeats the gap functions; plots, tables and the shell runners.
- RecoveryTime.ComputeRecoveryTime: takes the rows in the order the sort by time leaves, and does not sort them.
- StrBuf.Buffer.Reserve: does not model requests beyond 2^63 bytes, because the loop does not end there; `StrBuf.LoopEndsIff` says exactly when it does.
