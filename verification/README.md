# LangBot protocol proofs

A Dafny 4.11 model of the parts of LangBot whose correctness rests on a whole run, or on two programs
undoing each other, with proofs about them.

| file | what it models |
|---|---|
| `ReplyProtocol.dfy`, `ReplyGuarantees.dfy`, `ReplyOutcomes.dfy`, `ReplyDelivery.dfy`, `ReplyDeadWorker.dfy`, `ReplyClient.dfy` | the reply side of the WeCom WebSocket client: a queue and a worker task per request id, ACK futures, timeouts, lost connections, `disconnect`; as a state machine over every interleaving, its guarantees, and a class with the client's own fields that refines it step by step |
| `StreamPush.dfy` | pushing the chunks of one stream over that client |
| `StreamTable.dfy`, `StreamLifetimes.dfy`, `StreamSessions.dfy` | the stream sessions of the webhook client: table, message index, feedback index, queues, clean-up; the values and the two classes |
| `SetupGraph.dfy`, `TestRun.dfy` | the graph of setup automation between test cases, its cycle check, and the runner that recurses through the same graph |
| `ShutdownHandshake.dfy` | launcher and packaged backends over a request file and an acknowledgement file |
| `CommandLine.dfy`, `ArgvRules.dfy` | the launcher's argument quoting against the argument rules of the Microsoft C runtime |
| `MessageCrypt.dfy`, `CryptWire.dfy`, `Padding.dfy`, `Encodings.dfy`, `EncodingVectors.dfy`, `Xml.dfy` | WeCom message framing, padding (section 6.3 of RFC 5652), base64 and base16 (sections 4 and 8 of RFC 4648), UTF-8 (RFC 3629) and the XML envelope |
| `FileTransport.dfy` | encrypted files of the WeCom bot and of the OpenClaw client |
| `SseReader.dfy`, `SseFields.dfy`, `SseChunks.dfy` | the buffered reader of server-sent events in the DeerFlow client, and how its events depend on the chunks |
| `LogWatch.dfy`, `LogWindow.dfy`, `LogLaws.dfy` | watching a growing log, deduplicating findings, selecting a time window |
| `QqGateway.dfy`, `QqScripts.dfy` | the reconnect loop of the QQ gateway |
| `YamlLite.dfy`, `YamlText.dfy`, `JsText.dfy` | the YAML subset of the skills tool: parser, printers, JavaScript trimming |
| `Common.dfy` | `Option` and `Result` |

Code that updates fields in place is a class, and each of its methods is proved against a function on the
state; the theorems are about those functions. Protocols between tasks or processes are state machines
whose steps are the uninterrupted pieces of the code, so a run is any interleaving. AES and SHA-1 are
function-valued parameters; the only thing required of AES is that decryption inverts encryption on whole
blocks. Random ids, clocks, sockets, files and the operating system are inputs of the steps.

## What the proofs show about the code

Most of what the code promises holds for every run. Where it does not, the exact condition is proved:

- An argument that ends in backslashes and one line feed comes back changed, because `$` in the quoting
  expression also matches before a final line feed; every other argument list survives
  (`CommandLine.CommandLineRoundTrip`).
- A CRLF cut by a chunk boundary becomes two line feeds, so a block is split where it was cut. The events are
  those of the whole text exactly if in every block that is split no piece has a data line, or just one has and
  its event name is the block's (`SseChunks.ChunkIndependence`); two data lines never survive a cut between
  them (`SseChunks.CutCrlfSplitsEvent`). That is for streams whose buffer is never flushed for its size; a
  flush acts like a blank line at that place, also inside a line (`SseChunks.FlushIsBlankLine`,
  `SseChunks.FlushChanges`).
- `disconnect()` cancels a worker that is waiting for an ACK without settling its reply: that caller waits
  until it gives up itself (`ReplyGuarantees.LostForever`), and after a reconnect the next frame of the
  request overtakes it. That is exactly when a frame overtakes an unsettled one
  (`ReplyGuarantees.OvertakesExactly`, `ReplyGuarantees.DisconnectLetsFramesOvertake`).
- A reply that joins its queue between the idle timer and the worker's exit is never taken. An item is taken in
  some continuation exactly if a worker still reads its queue, that is one that is neither done nor past its
  idle timer nor cancelled before its first turn (`ReplyDelivery.TakenExactly`,
  `ReplyDelivery.EnqueuedForNobody`). An ACK that comes after its frame was given up answers the next frame of
  the request (`ReplyDelivery.LateAckAnswersNext`).
- A worker that `disconnect()` cancels before its first turn runs no `finally`, so its request stays registered
  with a queue nobody reads: every later reply to that request is enqueued, also after a reconnect, and never
  sent (`ReplyDeadWorker.DeadSwallows`, `ReplyDeadWorker.DisconnectBeforeFirstTurn`).
- A WebSocket message that is delivered again keeps the last content of its old stream. The first push of the
  new stream is answered with True and delivers nothing exactly if it is not final and repeats the last chunk
  pushed before, which was not final and found its stream open (`StreamPush.RedeliverySwallowsRepeat`,
  `StreamPush.SilentNewStream`).
- A session that was given a second feedback id leaves the entry of the first one behind when it expires, and
  no other entry outlives its session (`StreamTable.StaleFeedbackEntries`).
- Whoever reads a shutdown request removes it. The launcher's wait can be satisfied exactly while the backend
  it is for can still read it, holds it, or has its answer in the file; a left-over backend that reads it, or
  the right one whose read fails, loses it (`ShutdownHandshake.AcceptedIffAnswerable`,
  `ShutdownHandshake.FirstReaderDecides`).
- When the gateway's attempts run out on a failed gateway lookup, a failed connect or close code 4008,
  `on_error` is not called: exactly if the last attempt is one of those and it and the 99 before it got neither
  a READY nor a RESUMED (`QqGateway.UntoldExactly`, `QqGateway.FailedLookUpsGoUntold`).
- The watch cuts an unfinished line at a carriage return. Its lines are those of the file exactly if each such
  carriage return ends the file or stands before a whole CRLF that was not yet read; a poll that splits a CRLF
  does harm (`LogWatch.LinesOfWholeFile`).
- The YAML parser does not undo JSON escapes, drops values with U+2028 or U+2029, and loses a scalar under
  the key `__proto__` (`YamlLite.PrintThenParse`).

## Model

| member | source | states |
|---|---|---|
| ReplyProtocol.InvKept | src/langbot/libs/wecom_ai_bot_api/ws_client.py:602-683 | every step of every interleaving (enqueue, take, send, ACK, both timeouts, lost connection, cancelled caller, disconnect) keeps: a live worker is the registered one and reads the registered queue; logs and queues are in enqueueing order; an unsettled ACK future in use is the pending one of its request; every taken item is settled, in work or abandoned; each settled future was settled once |
| ReplyProtocol.RegisteredQueues | src/langbot/libs/wecom_ai_bot_api/ws_client.py:630-632 | the worker's first lookup of its queue never fails, and two requests never share a queue |
| ReplyGuarantees.Reached | src/langbot/libs/wecom_ai_bot_api/ws_client.py:602-683 | every state that any run reaches from the client's construction satisfies the invariant |
| ReplyGuarantees.OneWorkerPerRequest | src/langbot/libs/wecom_ai_bot_api/ws_client.py:622-632 | over every run two live workers of one request id are the same worker, so at most one frame of a request awaits an ACK |
| ReplyGuarantees.SentInOrder | src/langbot/libs/wecom_ai_bot_api/ws_client.py:622-646 | over every run the frames written for a request are a subsequence of those enqueued for it, without repetition |
| ReplyGuarantees.OutcomeKept | src/langbot/libs/wecom_ai_bot_api/ws_client.py:643-648 | over every run what a future was settled with, by an ACK, a timeout, a lost connection or its caller, never changes: no future is settled twice |
| ReplyGuarantees.PreviousSettled | src/langbot/libs/wecom_ai_bot_api/ws_client.py:636-648 | when a worker takes a frame, each frame taken before for that request is settled or was abandoned by a cancelled worker |
| ReplyGuarantees.OvertakesExactly | src/langbot/libs/wecom_ai_bot_api/ws_client.py:141-148 | over every run: when the next frame of its request is taken, an earlier frame is unsettled if and only if in some step of the run a worker was cancelled that held its unsettled reply and the caller has not given up since |
| ReplyGuarantees.OneAfterTheOther | src/langbot/libs/wecom_ai_bot_api/ws_client.py:636-648 | hence in every run without `disconnect` a frame is taken only after all earlier frames of its request are settled |
| ReplyGuarantees.AnswerIsOwn | src/langbot/libs/wecom_ai_bot_api/ws_client.py:654-666 | over every run an ACK that settles a reply carries the request id of that reply |
| ReplyGuarantees.AckReachesWorker | src/langbot/libs/wecom_ai_bot_api/ws_client.py:455-461 | an ACK that arrives while a worker waits settles exactly the future the worker waits for |
| ReplyGuarantees.NoItemVanishes | src/langbot/libs/wecom_ai_bot_api/ws_client.py:622-638 | every enqueued item has been taken or still sits in its queue |
| ReplyGuarantees.CancelledWorkerLosesReply | src/langbot/libs/wecom_ai_bot_api/ws_client.py:141-148 | a worker cancelled while busy with an unsettled reply leaves that reply to nobody |
| ReplyGuarantees.LostStaysLost | src/langbot/libs/wecom_ai_bot_api/ws_client.py:602-683 | no step but the caller's own cancellation settles such a reply |
| ReplyGuarantees.LostForever | src/langbot/libs/wecom_ai_bot_api/ws_client.py:628-652 | over every further run a lost reply is settled if and only if its caller gives up |
| ReplyGuarantees.DisconnectLetsFramesOvertake | src/langbot/libs/wecom_ai_bot_api/ws_client.py:141-154 | for every two frames of one request there is a run (the worker is cancelled, the socket closes, the pending ACKs are cleared, the client connects again) in which the second is written while the first reply is unsettled |
| ReplyOutcomes.LostConnectionIsRaised | src/langbot/libs/wecom_ai_bot_api/ws_client.py:654-683 | for every state with a worker waiting for an ACK and a caller waiting for the reply: when the pending ACKs are cleared the caller gets the error |
| ReplyOutcomes.TimeoutIsNothing | src/langbot/libs/wecom_ai_bot_api/ws_client.py:661-676 | after the ACK timer the caller gets None, and the request has no pending ACK left |
| ReplyOutcomes.AckIsHandedOn | src/langbot/libs/wecom_ai_bot_api/ws_client.py:654-666 | an ACK of the request is what the caller gets, whatever its error code |
| ReplyOutcomes.FailedSendIsRaised | src/langbot/libs/wecom_ai_bot_api/ws_client.py:654-676 | an error of the send goes to the caller and leaves the pending ACK, a timeout in it counts as None and removes it |
| ReplyOutcomes.AnswerGoesOn | src/langbot/libs/wecom_ai_bot_api/ws_client.py:643-648 | whatever settled the ACK future before the worker looks: an ACK is handed on, a rejection or a cancellation raises |
| ReplyOutcomes.DisconnectCancelsAll | src/langbot/libs/wecom_ai_bot_api/ws_client.py:141-148 | in every reachable state `disconnect` stops the loops and cancels every worker that is not done, and changes nothing else |
| ReplyDelivery.TakenExactly | src/langbot/libs/wecom_ai_bot_api/ws_client.py:622-652 | over every run: an item in a queue is taken in some continuation if and only if a worker reads its queue that is not done, not past its idle timer and not cancelled before its first turn |
| ReplyDelivery.UnreadForever | src/langbot/libs/wecom_ai_bot_api/ws_client.py:630-652 | an item in a queue nobody reads stays there over every further run |
| ReplyDelivery.EnqueuedForNobody | src/langbot/libs/wecom_ai_bot_api/ws_client.py:636-652 | for every two frames of one request there is a run in which the second joins its queue after the idle timer and is taken in no continuation |
| ReplyDelivery.LateAckAnswersNext | src/langbot/libs/wecom_ai_bot_api/ws_client.py:455-461 | for every two frames of one request and every ACK for it there is a run in which the first frame is given up and the ACK, arriving before the send of the second returned, settles the second reply |
| ReplyDeadWorker.DeadForever | src/langbot/libs/wecom_ai_bot_api/ws_client.py:622-652 | over every further run a request stays registered with the worker that was cancelled before its first turn |
| ReplyDeadWorker.DeadSwallows | src/langbot/libs/wecom_ai_bot_api/ws_client.py:622-628 | after every run to such a state: a reply to the request is enqueued without an error and taken in no continuation |
| ReplyDeadWorker.DisconnectBeforeFirstTurn | src/langbot/libs/wecom_ai_bot_api/ws_client.py:141-154 | such a state is reached for every frame: reply, `disconnect` before the worker's first turn, reconnect |
| ReplyClient.WsReplies.SendReply | src/langbot/libs/wecom_ai_bot_api/ws_client.py:602-628 | the fields change as the step says and the invariant holds; no future is returned exactly if the socket is closed |
| ReplyClient.WsReplies.Start | src/langbot/libs/wecom_ai_bot_api/ws_client.py:630-634 | the worker's first turn as a step that keeps the invariant |
| ReplyClient.WsReplies.Take | src/langbot/libs/wecom_ai_bot_api/ws_client.py:634-661 | the oldest item of the queue is taken, a new ACK future registered, and the frame written exactly if the socket is open |
| ReplyClient.WsReplies.IdleFires | src/langbot/libs/wecom_ai_bot_api/ws_client.py:636-640 | the idle timer may fire whatever is in the queue; the queue stays as it is |
| ReplyClient.WsReplies.Leave | src/langbot/libs/wecom_ai_bot_api/ws_client.py:638-652 | an idle worker leaves both dictionaries, with its queue |
| ReplyClient.WsReplies.SendReturns | src/langbot/libs/wecom_ai_bot_api/ws_client.py:660-661 | after the send the worker waits for the ACK future it registered before |
| ReplyClient.WsReplies.AckTimer | src/langbot/libs/wecom_ai_bot_api/ws_client.py:661 | the timer cancels the ACK future unless it is done, and the pending entry stays until the worker resumes |
| ReplyClient.WsReplies.AckResumes | src/langbot/libs/wecom_ai_bot_api/ws_client.py:661-671 | the worker goes on with the ACK, the error, or nothing after a timeout, which removes the pending entry |
| ReplyClient.WsReplies.SendRaises | src/langbot/libs/wecom_ai_bot_api/ws_client.py:660-671 | a failing send ends as an error, a timeout in it as no answer |
| ReplyClient.WsReplies.Settle | src/langbot/libs/wecom_ai_bot_api/ws_client.py:633-648 | the reply is settled unless it is done, and the worker goes on or leaves both dictionaries |
| ReplyClient.WsReplies.CancelDelivered | src/langbot/libs/wecom_ai_bot_api/ws_client.py:630-652 | a cancelled worker runs its `finally`, except before its first turn |
| ReplyClient.WsReplies.HandleAck | src/langbot/libs/wecom_ai_bot_api/ws_client.py:452-461 | the pending entry goes and its future gets the ACK unless it is done |
| ReplyClient.WsReplies.ClearPendingAcks | src/langbot/libs/wecom_ai_bot_api/ws_client.py:678-683 | the loop rejects every pending future that is not done and empties the table |
| ReplyClient.WsReplies.Disconnect | src/langbot/libs/wecom_ai_bot_api/ws_client.py:141-148 | the loop cancels exactly the registered workers that are not done |
| ReplyClient.WsReplies.CallerCancels | src/langbot/libs/wecom_ai_bot_api/ws_client.py:628 | a caller that gives up cancels its reply unless it is done |
| StreamPush.DeliveredWithoutRepeats | src/langbot/libs/wecom_ai_bot_api/ws_client.py:261-302 | over every run without a new delivery of the message, with failures and pushes for other messages in between: the replies accepted for it are the pushed chunks up to the first final one without adjacent repeats, all to its own request and stream; afterwards its stream is closed |
| StreamPush.OneFinishAtTheEnd | src/langbot/libs/wecom_ai_bot_api/ws_client.py:283-298 | a reply has `finish` set if and only if it is the last one and a final chunk was accepted |
| StreamPush.OwnPush | src/langbot/libs/wecom_ai_bot_api/ws_client.py:274-302 | a push answers True exactly if no final chunk was accepted before and it is a repeat or `reply_stream` did not raise |
| StreamPush.FailedPushCanBeRetried | src/langbot/libs/wecom_ai_bot_api/ws_client.py:291-302 | a failed push leaves the stream open, and a retry has the effect of a first success |
| StreamPush.FinishIsTracked | src/langbot/libs/wecom_ai_bot_api/ws_client.py:283-291 | the feedback id sent with the final chunk leads to the session of its message |
| StreamPush.KeptOfRun | src/langbot/libs/wecom_ai_bot_api/ws_client.py:261-302 | over every run with any number of deliveries and pushes: the message has a stream, and a kept last content, exactly as its deliveries and successful pushes say |
| StreamPush.RedeliverySwallowsRepeat | src/langbot/libs/wecom_ai_bot_api/ws_client.py:279-281 | after every run and one more delivery of the message, its next successful push is answered True and delivers nothing if and only if it is not final and repeats the last chunk pushed before, which was not final and found its stream open |
| StreamPush.SecondDelivery | src/langbot/libs/wecom_ai_bot_api/ws_client.py:279-281 | for a message that came once before: if and only if no final chunk of the old stream was accepted and the last one accepted had that content |
| StreamPush.SilentNewStream | src/langbot/libs/wecom_ai_bot_api/ws_client.py:261-302 | the case is reached, for all ids and contents: delivery, chunk, delivery, the same chunk, and the new stream has delivered nothing |
| StreamPush.SessionOfStream | src/langbot/libs/wecom_ai_bot_api/ws_client.py:481-494 | over every run exactly the open streams have a session, that of the latest delivery of their message |
| StreamPush.KeySplitsBack | src/langbot/libs/wecom_ai_bot_api/ws_client.py:277 | request and stream id come back from the stored key exactly if the request id has no bar |
| StreamPush.StreamClient.PushStreamChunk | src/langbot/libs/wecom_ai_bot_api/ws_client.py:261-302 | the fields and the answer are those of the function the theorems are about |
| StreamPush.StreamClient.HandleMessageCallback | src/langbot/libs/wecom_ai_bot_api/ws_client.py:481-494 | a message with an id opens its stream, one without changes nothing |
| StreamPush.StreamClient.SetMessage | src/langbot/libs/wecom_ai_bot_api/ws_client.py:304-311 | a message is dropped exactly if its final push fails |
| StreamTable.InvKept | src/langbot/libs/wecom_ai_bot_api/api.py:111-244 | every step (callback, push, refresh, take, finish, clean-up) keeps the message index and the table pointing at each other, every live session under its latest feedback id, and each session's last chunk and finished flag true to what was published |
| StreamTable.MessageIndexBijection | src/langbot/libs/wecom_ai_bot_api/api.py:121-152 | a non-empty message id is in the index exactly if a live session carries it, and then it is the only one |
| StreamTable.PushIsNeverDropped | src/langbot/libs/wecom_ai_bot_api/api.py:1092-1115 | `push_stream_chunk` answers True exactly if a live session carries the message id, and then the chunk is published to it and to no other, although the answer of `publish` is ignored |
| StreamTable.RunChunks | src/langbot/libs/wecom_ai_bot_api/api.py:154-213 | over every run a session's published and taken chunks are those the steps published and took, in order |
| StreamTable.TakenIsPrefixOfPublished | src/langbot/libs/wecom_ai_bot_api/api.py:154-213 | over every run the chunks refreshes took from a session are a prefix of the chunks published to it |
| StreamTable.FinalChunkIsReplayed | src/langbot/libs/wecom_ai_bot_api/api.py:185-213 | once a final chunk published last has been taken, after any further steps that publish nothing to the session a timed-out refresh answers with that chunk |
| StreamTable.StaleFeedbackEntries | src/langbot/libs/wecom_ai_bot_api/api.py:223-244 | over every run: the entry of a feedback id that was given out points to a session that is gone if and only if that session has left the table and had been given another feedback id later; an entry always points to the session its id was given to |
| StreamTable.FeedbackFindsSession | src/langbot/libs/wecom_ai_bot_api/api.py:95-109 | over every run: a look-up by feedback id answers with a session if and only if that id was given to it and it is still live |
| StreamLifetimes.UsedLast | src/langbot/libs/wecom_ai_bot_api/api.py:121-219 | over every run a session remembers the time of the last step that used it |
| StreamLifetimes.SweepExactly | src/langbot/libs/wecom_ai_bot_api/api.py:221-233 | a session survives a clean-up if and only if it was used at most 600 seconds ago and has a feedback id, or at most the table's limit ago and has none |
| StreamLifetimes.SweepInRun | src/langbot/libs/wecom_ai_bot_api/api.py:221-244 | over every run from the empty table: one clean-up later exactly the live sessions are left that were used at most 600 seconds before, since each was given a feedback id |
| StreamLifetimes.UsedSessionIsKept | src/langbot/libs/wecom_ai_bot_api/api.py:221-244 | a session with a feedback id used within 600 seconds is after the clean-up still found by that id, and chunks for its message still reach it |
| StreamLifetimes.TimeoutAnswer | src/langbot/libs/wecom_ai_bot_api/api.py:205-213 | over every run a refresh that times out is answered with the chunk pushed last if the session was finished, and with nothing before |
| StreamTable.RedeliveryLeavesFeedbackEntry | src/langbot/libs/wecom_ai_bot_api/api.py:223-244 | the case is reached: for all ids, two deliveries of one message and an expiry leave the first feedback id with no session |
| StreamSessions.StreamSessionManager.CreateOrGet | src/langbot/libs/wecom_ai_bot_api/api.py:121-152 | the table changes as the model says, and the session returned is the one in the table |
| StreamSessions.StreamSessionManager.Publish | src/langbot/libs/wecom_ai_bot_api/api.py:154-183 | the chunk goes to the end of the session's queue; no answer but False without a session |
| StreamSessions.StreamSessionManager.MarkFinished | src/langbot/libs/wecom_ai_bot_api/api.py:215-219 | only the session named changes, and nothing does without one |
| StreamSessions.StreamSessionManager.GetStreamIdByMsg | src/langbot/libs/wecom_ai_bot_api/api.py:87-90 | the look-up answers nothing for an empty or unknown message id |
| StreamSessions.StreamSessionManager.RegisterFeedbackId | src/langbot/libs/wecom_ai_bot_api/api.py:111-119 | an entry is made only for two non-empty ids |
| StreamSessions.StreamSessionManager.ConsumeBegin | src/langbot/libs/wecom_ai_bot_api/api.py:198-203 | a refresh keeps the session it found, and touches it, before it waits |
| StreamSessions.StreamSessionManager.TimedOut | src/langbot/libs/wecom_ai_bot_api/api.py:211-213 | a wait without a chunk answers with the last chunk exactly if the session is finished and has one |
| StreamSessions.StreamSessionManager.ConsumeTake | src/langbot/libs/wecom_ai_bot_api/api.py:205-210 | the oldest chunk is handed out, also when the session has left the table meanwhile |
| StreamSessions.StreamSessionManager.PushStreamChunk | src/langbot/libs/wecom_ai_bot_api/api.py:1092-1115 | look-up, publish and finish together change the table as the model says |
| StreamSessions.StreamSessionManager.InitialResponse | src/langbot/libs/wecom_ai_bot_api/api.py:841-857 | session, its feedback id and the feedback index change together |
| StreamSessions.StreamSessionManager.CollectExpired | src/langbot/libs/wecom_ai_bot_api/api.py:227-233 | the first loop finds exactly the live sessions past their time to live, the longer one for sessions with a feedback id |
| StreamSessions.StreamSessionManager.Cleanup | src/langbot/libs/wecom_ai_bot_api/api.py:221-244 | both loops together remove exactly the expired sessions and the index entries that pointed at them |
| SetupGraph.ValidateSetupAutomationCycles | skills/src/commands/validate.ts:198-225 | the check terminates, reports nothing if and only if the graph of known cases has no cycle, and each error prints a closed walk of real edges with the start appended |
| SetupGraph.NamesExactly | skills/src/setup-automation.ts:18-43 | for every text: an entry names a case if and only if it reads `case:` and the id with white space around either, or reads neither form and names the empty id |
| SetupGraph.EdgesByText | skills/src/commands/validate.ts:213-216 | the edges of the graph are the case entries as they are written |
| SetupGraph.NodeNames | skills/src/setup-automation.ts:28-36 | an entry that reads `node:` names no case, and its script is the first word |
| SetupGraph.CycleCheck.Visit | skills/src/commands/validate.ts:204-220 | the recursive visit leaves the visiting set as it found it, only adds to visited and errors, and finishes the case if there was no error |
| SetupGraph.RankedIsAcyclic | skills/src/commands/validate.ts:198-225 | if every edge leads to an earlier finished case there is no cycle |
| SetupGraph.RepeatedIdIsCycle | skills/src/commands/validate.ts:206-211 | the slice of the path from the repeated id is a closed walk |
| TestRun.RunCase | skills/src/commands/test.ts:1173-1245 | without a cycle a run terminates; every event of its log is justified: the chain of nested runs follows declared case entries and meets no case twice, setups come in declared order and only while they return 0, a script only after all of them; each status logged is that of the spawn or the nested run that gave it; and a run of the one case with the id that has a script ends with that script, unless one of its setup entries failed, whose status it then returns; without such a case or script it returns 1 |
| TestRun.RunSetups | skills/src/commands/test.ts:1190-1213 | the loop over the setup entries, with the same guarantees for its part of the log |
| TestRun.RunSetup | skills/src/commands/test.ts:1102-1171 | one entry: what a nested run returned, what the spawn of a script counts as, and 1 for a target there is not or a spawn that failed |
| TestRun.AcyclicWalkIsDistinct | skills/src/commands/test.ts:1102-1171 | in an acyclic graph no chain of setup edges meets a case twice |
| ShutdownHandshake.InvKept | packaging/launcher/ChatbotLauncher/LauncherProcessManager.cs:865-988 | every file operation and every step of any number of backends keeps sessions and request ids apart, calls and their requests apart, files and watchers to known requests, and the acknowledgement file genuine |
| ShutdownHandshake.InvAlways | packaging/launcher/ChatbotLauncher/LauncherProcessManager.cs:865-988 | the same over every run |
| ShutdownHandshake.AcceptedMeansStopping | packaging/launcher/ChatbotLauncher/LauncherProcessManager.cs:963-988 | from any leftover files and any leftover backends, at whatever point of their own handshakes, over every run: when the launcher's wait accepts, the only backend of that session has that process id, answered exactly the request of that call, and has set its event or is one step from it |
| ShutdownHandshake.NeverStoppedForAnother | packaging/server/entrypoint.py:237-265 | a backend with a session id is stopped over the file only by a shutdown request with its own session and process id, and one this launcher started only by a request this launcher wrote |
| ShutdownHandshake.RequestReachesApp | packaging/server/entrypoint.py:276-304 | a set event reaches `request_shutdown` when `make_app` returns, or has reached it, or does in the forwarder's next turn, unless `run` has returned |
| ShutdownHandshake.AcceptedIffAnswerable | packaging/launcher/ChatbotLauncher/LauncherProcessManager.cs:963-988 | for every state with a waiting call: some continuation makes its poll accept if and only if the matching acknowledgement is in the file, or a live backend with the launcher's session and the call's process id accepts the request and holds it or is about to read it from the file |
| ShutdownHandshake.ReaderDecides | packaging/server/entrypoint.py:237-265 | whoever reads the file takes the request away: from then on it can be accepted if and only if the read succeeded and the reader is the backend the request is for |
| ShutdownHandshake.FirstReaderDecides | packaging/server/entrypoint.py:237-265 | a run from any leftovers to such a read: the call can still be accepted if and only if the reader is the backend just started and its read succeeds, not if it is a left-over backend or the read fails |
| ShutdownHandshake.ReadAndRemoved | packaging/server/entrypoint.py:237-255 | for every backend and request file: the file is gone, and the backend goes on to acknowledge if and only if it could read a shutdown request for its session and process id, or has no session |
| ShutdownHandshake.HopelessStays | packaging/launcher/ChatbotLauncher/LauncherProcessManager.cs:963-988 | no step of any process brings back a request that can no longer be accepted |
| ShutdownHandshake.WatchEarlyShutdownRequests | packaging/server/entrypoint.py:229-266 | the loop ends in the first round that finds an acceptable request, has acknowledged that one only, and has consumed everything found before |
| ShutdownHandshake.WaitForAcknowledgement | packaging/launcher/ChatbotLauncher/LauncherProcessManager.cs:963-988 | the wait accepts if and only if some poll before the deadline sees a matching acknowledgement |
| CommandLine.CommandLineRoundTrip | packaging/launcher/ChatbotLauncher/LauncherProcessManager.cs:291-318 | parsing the joined line gives back the argument list if and only if no argument ends in a backslash and one line feed |
| CommandLine.CommandLineReadsBack | packaging/launcher/ChatbotLauncher/LauncherProcessManager.cs:291-318 | for every argument list: what the parsed line contains, argument by argument |
| CommandLine.LeftAsItIs | packaging/launcher/ChatbotLauncher/LauncherProcessManager.cs:291-301 | an argument is left unquoted if and only if it is not empty and has neither white space nor a quote |
| CommandLine.SlashNewlineIsDamaged | packaging/launcher/ChatbotLauncher/LauncherProcessManager.cs:291-310 | a concrete argument that does not survive |
| CommandLine.QuotedInner | packaging/launcher/ChatbotLauncher/LauncherProcessManager.cs:303-310 | both replacements together print the one text between quotes that reads back as the argument |
| CommandLine.BodyReadsBack | packaging/launcher/ChatbotLauncher/LauncherProcessManager.cs:303-310 | the Microsoft rules read that text back up to the closing quote |
| MessageCrypt.MessageRoundTrip | src/langbot/libs/wecom_ai_bot_api/WXBizMsgCrypt3.py:235-278 | what `EncryptMsg` makes of a message under 2^32 bytes, with its embedded signature and the same timestamp and nonce, `DecryptMsg` turns into code 0 and the message's bytes, and for another receive id into the corp-id error; for hosts of either byte order |
| MessageCrypt.EncryptDecrypt | src/langbot/libs/wecom_ai_bot_api/WXBizMsgCrypt3.py:142-195 | encryption fails exactly from 2^32 bytes on; decryption gives back the bytes or the corp-id error |
| MessageCrypt.UnframeFramed | src/langbot/libs/wecom_ai_bot_api/WXBizMsgCrypt3.py:142-195 | random prefix, length field, text and receive id are taken apart again |
| MessageCrypt.LengthField | src/langbot/libs/wecom_ai_bot_api/WXBizMsgCrypt3.py:142-186 | on a host of either byte order the length field is the big-endian length, and reading it gives the length |
| MessageCrypt.SignatureOrderFree | src/langbot/libs/wecom_ai_bot_api/WXBizMsgCrypt3.py:40-58 | the signature depends on the inputs as a multiset only |
| CryptWire.SignatureExactly | src/langbot/libs/wecom_ai_bot_api/WXBizMsgCrypt3.py:40-58 | for all strings: the signature is the digest of the four parts joined in the ascending order of their code points |
| CryptWire.WireFormat | src/langbot/libs/wecom_ai_bot_api/WXBizMsgCrypt3.py:142-163 | what any AES-CBC peer with the first 16 bytes of the key as initialisation vector decrypts: random bytes, big-endian length, text and receive id, padded to 32 |
| CryptWire.OnlySigned | src/langbot/libs/wecom_ai_bot_api/WXBizMsgCrypt3.py:257-278 | a message is accepted only under its own signature; which code refuses which message |
| CryptWire.TooShort | src/langbot/libs/wecom_ai_bot_api/WXBizMsgCrypt3.py:178-190 | a plaintext is refused as illegal if and only if it has no room for random bytes, length and padding |
| CryptWire.LengthBeyondEnd | src/langbot/libs/wecom_ai_bot_api/WXBizMsgCrypt3.py:184-195 | a length field beyond the end takes all there is as the text and leaves an empty receive id |
| CryptWire.EnvelopeCarriesAll | src/langbot/libs/wecom_ai_bot_api/WXBizMsgCrypt3.py:65-100 | time stamp and nonce are read back from the envelope |
| MessageCrypt.EnvelopeFields | src/langbot/libs/wecom_ai_bot_api/WXBizMsgCrypt3.py:60-100 | the printed envelope parses, and its fields are the encrypted text and the signature |
| Xml.DocumentRoundTrip | src/langbot/libs/wecom_ai_bot_api/WXBizMsgCrypt3.py:60-100 | reading a printed tree of elements, text and CDATA without markup in its texts gives the tree back |
| Padding.RemovePadding | src/langbot/libs/wecom_ai_bot_api/api.py:282-298 | the loop accepts exactly the buffers whose last byte p is in 1..32, at most the length, and repeated p times, and returns the rest |
| Padding.PadRoundTrip | src/langbot/libs/wecom_ai_bot_api/WXBizMsgCrypt3.py:103-120 | unpadding undoes the encoder for every byte string and both block sizes |
| Padding.WellPaddedForm | src/langbot/libs/wecom_ai_bot_api/api.py:282-298 | the accepted buffers are exactly data followed by p bytes p |
| Padding.SliceAgrees | src/langbot/libs/wecom_ai_bot_api/WXBizMsgCrypt3.py:178-184 | the unchecked slice of `Prpcrypt.decrypt` agrees with the checked unpadding there |
| EncodingVectors.Base64Vectors | src/langbot/libs/wecom_ai_bot_api/api.py:264-269 | the vectors of section 10 of RFC 4648 |
| EncodingVectors.NoiseIsSkipped | src/langbot/libs/wecom_ai_bot_api/api.py:264-269 | base64 decoding skips ASCII characters outside the alphabet wherever they stand |
| EncodingVectors.Utf8Exactly | src/langbot/libs/wecom_ai_bot_api/WXBizMsgCrypt3.py:192 | UTF-8 decoding accepts exactly what encoding writes |
| Encodings.Base64RoundTrip | src/langbot/libs/wecom_ai_bot_api/api.py:247-269 | base64 decoding, as CPython does it, undoes encoding for every byte string |
| Encodings.RepadUndoesStripping | src/langbot/libs/wecom_ai_bot_api/api.py:264-268 | adding `=` by the length restores a key whose `=` were stripped |
| Encodings.HexRoundTrip | src/langbot/libs/openclaw_weixin_api/client.py:273-281 | base16 decoding undoes encoding |
| Encodings.Utf8RoundTrip | src/langbot/libs/wecom_ai_bot_api/WXBizMsgCrypt3.py:142-192 | UTF-8 decoding undoes encoding for every string |
| FileTransport.DecryptFile | src/langbot/libs/wecom_ai_bot_api/api.py:247-298 | key, zero-filling, decryption and unpadding together give the file or an error, as the model says |
| FileTransport.DecryptFileRoundTrip | src/langbot/libs/wecom_ai_bot_api/api.py:247-298 | a file padded and encrypted comes back for either form of the key |
| FileTransport.FileExactly | src/langbot/libs/wecom_ai_bot_api/api.py:247-298 | a file is returned if and only if the data decrypt to it and 1 to 32 bytes of padding |
| FileTransport.ShortBlockIsFilled | src/langbot/libs/wecom_ai_bot_api/api.py:274-280 | data that end within a block give what they give with zeros up to its end |
| FileTransport.FileKeyForms | src/langbot/libs/wecom_ai_bot_api/api.py:264-269 | a base64 key with or without its `=` gives the same key |
| FileTransport.MediaKeyForms | src/langbot/libs/openclaw_weixin_api/client.py:269-281 | the base64 of the raw 16-byte key and the base64 of its hex text give the same key |
| FileTransport.MediaKeyByLength | src/langbot/libs/openclaw_weixin_api/client.py:269-281 | 16 decoded bytes are the key, 32 its hex text, any other number is none |
| FileTransport.MediaRoundTrip | src/langbot/libs/openclaw_weixin_api/client.py:249-385 | downloading the result of an upload gives the file back for every file, while the CDN keeps what was stored |
| SseChunks.ChunkIndependence | src/langbot/libs/deerflow_api/client.py:175-204 | for every way of chunking without an overflow: the events are those of the whole normalised text if and only if every block of it survives its cut CRLFs, that is no piece they split it into has data, or exactly one has and is named like the block; without a cut CRLF they are |
| SseChunks.EventsBySegments | src/langbot/libs/deerflow_api/client.py:49-63 | the events of the whole text are those of its blocks, and the events of what the buffer sees are those of the pieces the cut line ends split the blocks into, a cut at or in a blank line included |
| SseChunks.SurvivesExactly | src/langbot/libs/deerflow_api/client.py:49-63 | the pieces of a block have its events exactly if it survives, and never fewer events than it |
| SseChunks.MarkedReads | src/langbot/libs/deerflow_api/client.py:21-23 | the one marked text the condition is about reads as the whole normalised text, and with its cut line ends doubled as what reaches the buffer |
| SseChunks.CutCrlfSplitsEvent | src/langbot/libs/deerflow_api/client.py:175-204 | for all one-line data of any length: the reader yields one event for both lines, and two if their CRLF is cut |
| SseChunks.FlushIsBlankLine | src/langbot/libs/deerflow_api/client.py:187-192 | for all chunks: the events are those of what reached the buffer with a blank line wherever it was flushed for its size |
| SseChunks.FlushChanges | src/langbot/libs/deerflow_api/client.py:187-192 | such a flush changes nothing if and only if it falls into a blank line, or the block it cuts has the events of its two parts |
| SseChunks.StreamedIsWhole | src/langbot/libs/deerflow_api/client.py:175-204 | without an overflow the loop yields the events of the concatenation of its normalised chunks |
| SseChunks.BufferBetweenChunks | src/langbot/libs/deerflow_api/client.py:178-192 | between chunks the buffer holds no blank line and at most 1048576 characters |
| SseReader.ChunkwiseNormalization | src/langbot/libs/deerflow_api/client.py:21-23 | normalising chunk by chunk equals normalising the whole if and only if no CRLF is cut |
| SseReader.BlocksIncremental | src/langbot/libs/deerflow_api/client.py:181-185 | cutting blocks from a prefix and then from its rest with more text is cutting the whole |
| SseFields.LastNameCounts | src/langbot/libs/deerflow_api/client.py:53-58 | for all lines: the last `event:` line names the event, without the white space around the name |
| SseFields.DataInOrder | src/langbot/libs/deerflow_api/client.py:59-60 | every `data:` line adds its text, without the white space before it, in order |
| SseFields.BlockIsEvent | src/langbot/libs/deerflow_api/client.py:50-63 | a block is an event if and only if it has a `data:` line |
| SseReader.ParseSseBlock | src/langbot/libs/deerflow_api/client.py:49-63 | the line loop finds event name and data lines as the specification of a block says |
| SseReader.TakeBlocks | src/langbot/libs/deerflow_api/client.py:181-185 | the inner loop yields the events of all complete blocks and keeps the rest |
| SseReader.StreamRun | src/langbot/libs/deerflow_api/client.py:175-204 | the whole loop, with the forced flush and the final one, yields what the model streams |
| LogWatch.LinesOfWholeFile | skills/src/commands/log.ts:267-318 | for every growing file and all poll instants: the non-empty numbered lines scanned over all polls and at the end are those of the file if and only if every cut was harmless, that is after a line feed, or after a carriage return that ends the file or stands before a whole CRLF not yet read |
| LogWatch.FindingsOfWholeFile | skills/src/commands/log.ts:267-318 | the findings of the watch are those of one scan, for whatever rules that find nothing in an empty line, if and only if every cut was harmless |
| LogWatch.PollReads | skills/src/commands/log.ts:267-294 | each poll scans from the last break it had read to the last break there is now and carries the rest |
| LogWatch.NonEmptyLinesAppend | skills/src/log-guard.ts:285 | lines of a continued text are the lines so far and the numbered lines of the rest |
| LogWatch.PollHarms | skills/src/commands/log.ts:276-288 | after the first cut that is not harmless, what was scanned is the beginning of no scan of the file, whatever is scanned later |
| LogLaws.InLineExactly | skills/src/log-guard.ts:400-469 | for all lines and rules: the findings of a line are one for the first matching pattern of each kind and name, with its severity unless it is expected, and one for a leak |
| LogLaws.ShrunkFileStartsOver | skills/src/commands/log.ts:267-274 | a file shorter than what was read is read as if the watch began with it |
| LogWatch.ScanState.AddFinding | skills/src/log-guard.ts:389-405 | a finding is added exactly if none with its key was |
| LogWatch.ScanState.ScanUnexpectedPatterns | skills/src/log-guard.ts:435-469 | both loops together give, line by line, the deduplicated matches and leaks of each line |
| LogWatch.Watcher.PollFile | skills/src/commands/log.ts:267-300 | the closure variables change as the model's poll says, also when the file shrank, and the findings stay those of the lines scanned |
| LogWatch.Watcher.Finish | skills/src/commands/log.ts:310-318 | the carried text is scanned as the last line |
| LogWatch.ScanLogText | skills/src/log-guard.ts:250-317 | scanning a text numbers its lines on from the base number and finds what the rules find in them |
| LogWatch.CommandLogWatch | skills/src/commands/log.ts:302-318 | all polls and the final carry together give the findings the theorems are about, and those of one scan when every cut was harmless |
| LogWindow.SelectLinesForScan | skills/src/log-guard.ts:721-757 | with a limit and a timestamped line the selection is exactly the lines whose nearest timestamp at or above lies in the window, in order; otherwise all lines; both cut to the last `tail_lines` |
| LogWindow.FilterLines | skills/src/log-guard.ts:732-742 | the closure variable selects exactly the wanted indices and counts the timestamped lines |
| LogLaws.WantedExactly | skills/src/log-guard.ts:732-742 | a line is wanted if and only if the nearest timestamp at or above it lies between the limits, both included |
| LogWindow.PicksAreUnique | skills/src/log-guard.ts:732-743 | that description determines the selection |
| QqGateway.ConnectGateway | src/langbot/libs/qq_official_api/api.py:590-819 | for every sequence of attempts: the log shows exactly what the connections delivered and is good (each Resume carries the session of the latest READY and the latest sequence number, an Identify is sent only without them, at most 101 attempts pass without READY or RESUMED); the run makes as many attempts, ends as and tells the caller exactly when the attempts alone say it should; otherwise it goes on after the sleep the last failure and its number in a row demand |
| QqGateway.UntoldExactly | src/langbot/libs/qq_official_api/api.py:606-819 | for every sequence of attempts: the run ends without telling the caller if and only if its last attempt is the 101st or later and failed in the look-up, the connect or with close code 4008, and it and the 99 before it got neither a READY nor a RESUMED |
| QqGateway.FailedLookUpsGoUntold | src/langbot/libs/qq_official_api/api.py:606-629 | 101 failed look-ups end the run, and nobody is told |
| QqGateway.EndIsFirst | src/langbot/libs/qq_official_api/api.py:606-819 | the attempt at which the run ends is the first that is terminal or one failure too many |
| QqGateway.FailuresInARow | src/langbot/libs/qq_official_api/api.py:706-730 | what the failure count says about the attempts: more than m if and only if there were more than m attempts and the last m got neither a READY nor a RESUMED |
| QqGateway.Listen | src/langbot/libs/qq_official_api/api.py:644-756 | the message loop handles exactly the messages up to the first that ends or breaks the connection and keeps session, sequence number and failure count true to the log |
| QqGateway.Round | src/langbot/libs/qq_official_api/api.py:606-819 | one round of the outer loop: what each close code leads to, which sleep follows, and when the round returns |
| QqScripts.EndDecides | src/langbot/libs/qq_official_api/api.py:745-788 | for every connection of every run, whatever its messages: what the client knows afterwards of session and sequence number is what it knew before the message that ended the connection, unless that is an invalid session that cannot be resumed or the close code invalidates it; then nothing |
| QqScripts.NextGreeting | src/langbot/libs/qq_official_api/api.py:660-703 | the next connection greets accordingly, with an Identify after an invalid session that cannot be resumed and otherwise with what was known before |
| QqScripts.HelloIsGreeted | src/langbot/libs/qq_official_api/api.py:660-703 | every Hello that is handled is answered with one greeting that carries what the client knew right before it |
| QqScripts.KnownAfterAttempt | src/langbot/libs/qq_official_api/api.py:644-756 | session and sequence number after a connection are those of the last handled messages that had any |
| QqScripts.BreaksExactly | src/langbot/libs/qq_official_api/api.py:644-756 | a connection ends in an exception if and only if the message it ends with raises, or the socket after the last one |
| QqScripts.OutcomeByCode | src/langbot/libs/qq_official_api/api.py:781-792 | a run ends as banned with close code 4914 or 4915 and normally with 1000, and only so |
| QqScripts.SleepAfterFailure | src/langbot/libs/qq_official_api/api.py:620-632 | the seconds slept after each kind and number of failures |
| QqGateway.GoodEverywhere | src/langbot/libs/qq_official_api/api.py:665-675 | the guarantees hold at every place of a good log |
| QqGateway.NoResumeAfterInvalidation | src/langbot/libs/qq_official_api/api.py:749-788 | after an invalidation nothing is resumed until a new READY |
| YamlLite.PrintThenParse | skills/src/fs.ts:121-186 | for documents with distinct keys parsing undoes printing if and only if every value is free of characters `JSON.stringify` escapes and of U+2028 and U+2029 and no scalar stands under `__proto__` |
| YamlLite.PrintedDocumentReads | skills/src/fs.ts:121-186 | for every document with distinct keys: what the parser has under each key, and that it has no other keys |
| YamlLite.ParseYamlLite | skills/src/fs.ts:133-163 | the line loop with its list state computes the fold over lines the theorems are about |
| YamlText.ScalarLine | skills/src/fs.ts:141-152 | for every hand-written `key: value` line with white space around the value: the value is stored under the key, except under `__proto__`, and the list ends |
| YamlText.DashedLine | skills/src/fs.ts:155-159 | a dashed line adds its item to the list that is open and to nothing otherwise |
| YamlText.QuotedValue | skills/src/fs.ts:121-131 | quotes of either kind at both ends are taken away, one from each |
| YamlText.PlainValue | skills/src/fs.ts:125-131 | any other value is its trimmed text, and `true` and `false` are flags |
| YamlLite.EscapeSame | skills/src/fs.ts:180-182 | `JSON.stringify` leaves a string as it is exactly if none of its characters needs an escape |

## Left out

- The sockets, HTTP calls, files and processes themselves, AES, SHA-1, Ed25519: inputs of the steps, parameters, or not modelled.
- JSON decoding of event data and of callbacks, and the incremental UTF-8 decoder: decoded text and parsed values are taken as given.
- `connect`, the heartbeat loop and the authentication of the WebSocket client: reconnect delays and a counter, no property that spans operations.
- Reply protocol: calls of the logger return; one that raises would end as the error of the reply.
- Reply protocol: nothing is claimed about what the server receives; an ACK names a request, not a frame.
- Stream pushes: pushes for one message do not overlap, and a reply that was not acknowledged counts as accepted, because `_send_reply` returns None for it.
- The cache of non-stream answers in the webhook client (`generated_content`): a look-up by message id.
- TestRun.RunCase: `--dry-run`, a run killed from outside, and locating a case by a skill and a case id, are not modelled.
- Launcher: health and readiness probes, port checks, log and state files, cancellation, and the force kill after an unanswered request.
- ShutdownHandshake.AcceptedMeansStopping: a backend may be killed between its acknowledgement and its next step; the step is then never taken.
- Command line: the rule for the program name in front of the line.
- XML: attributes, entity references, comments, processing instructions and line-end normalisation.
- SseChunks.ChunkIndependence: its condition is for streams that are never flushed for their size; with flushes the events are those of `SseChunks.FlushIsBlankLine`, and no condition on the whole stream is given.
- Log scanning: the regular expressions of the patterns, of timestamps and of redaction are parameters; declared and troubleshooting patterns stop after three matches per scan, so for them a watch differs from one scan.
- LogWatch.LinesOfWholeFile: polls that split a multi-byte character are not modelled; the text is taken as decoded.
- Gateway: token refresh (`should_refresh_token` is reset at the top of every round), the heartbeat task, and cancellation.
- YamlLite.PrintThenParse: lone surrogates, which strings of Unicode scalar values do not have, and documents that repeat a key.
- Pure source functions (padding, encodings, encryption, upload and download of media) stay functions.
- Event parsing and message wrappers of the other platforms, manifest and environment validation, suite status: field copying and table look-ups.
