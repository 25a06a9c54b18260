# Souk: a verified model of the gateway, its SDKs and the pod probe

Souk is a gateway between agents, the callers who run them and the LLM
providers who pay for their inference, with an SDK at the far end of each of
its wires. This project models the parts of it whose correctness is spread over
several functions, several processes or a whole run, and proves what they
promise. `dafny verify dfyconfig.toml` checks everything.

Code that changes state is modelled as classes, arrays and loops, each method
proved against a function on values; protocols are transition systems whose
steps are what a coroutine or goroutine does between two awaits, so a statement
about `After(steps)` is about every interleaving of every length.

| files | what they model |
|---|---|
| `Seqs`, `Texts` | options, projections of sequences, what has happened and not been undone in a run; joining, splitting, ordering, sorting |
| `KyokLink`, `KyokProvider`, `KyokGateway`, `KyokRelay`, `KyokDrains` | the completion relay: one connection as a value, the object with its mutable queues, any number of connections with arbitrary peers, the relay end to end with the bridge, and that what is asked gets through it |
| `Sse` | the completion endpoint's event stream, read back as section 9.2.6 of the WHATWG HTML Standard reads it |
| `ProviderOutbox` | the provider SDK's outbound queue over successive sockets |
| `ThreadReads`, `ProviderQueries`, `ProviderLink`, `ProviderDrains`, `ThreadHistory` | questions on the provider link, who is told what, that answers get back, and the history merge fed by them |
| `Verdicts` | the answer to an offered run, from the runtime to the broker |
| `GatewaySocket`, `GatewayAnswers`, `GatewayRoster`, `GatewayWatcher` | the gateway's end of a provider connection: the coroutines on it and its wire, what each step answers, the two tables it keeps, the watcher over its roster |
| `ProbeRuns` | the Go probe's goroutines, its serialized writer and its cancel set |
| `ClientLineage` | the caller's client: open asks and the root of a conversation |
| `Fnv`, `Residues`, `StallPlacement`, `StallExamples` | the 32-bit FNV-1a hash, orbits modulo the grid, where stalls stand, and three stalls placed |
| `AskIds`, `Utf8`, `Payloads`, `PresenterProof` | canonical ask ids, signed payloads with their parser, and the presenter header |
| `Routes` | a delegation tree as its root-to-leaf routes |
| `ChatTranslation` | chat-completion chunks as AG-UI events |

## What the code turned out not to promise

Where a promise does not hold of the code on all inputs, the code is modelled as
it is. Each entry names the lemma that says exactly when the promise holds, and
then the lemma that shows an input on which it does not.

- A refusal reaches the broker as a refusal if and only if it has a reason; one
  without is heard as a plain "not now" and offered again:
  `Verdicts.VerdictsArriveExactly`; `Verdicts.EmptyRefusalIsReoffered`.
- The roster and the interjection table come from one roster if and only if no
  roster was declared or the last one declared was granted:
  `GatewayRoster.TablesPartExactly`; `GatewayRoster.RefusedRosterStillSpeaks`.
- The roster watcher closes only on names it heard to be unlisted and that were
  not granted again after that, if and only if each name with a standing grant
  made while it was asking was heard of after that grant; in terms of the grant,
  if and only if the watcher had yet to hear of the name when it was granted:
  `GatewayWatcher.CloseIsRightExactly`, `GatewayWatcher.CloseIsRightInTime`;
  `GatewayWatcher.CloseGoesByTheSnapshot` (a new name),
  `GatewayWatcher.GrantAfterTheHearingIsMissed` (an old one granted afresh).
- The pattern for agent names admits the names of the stated rule and each of
  them with a trailing newline: `GatewaySocket.AgentNameExactly`;
  `GatewaySocket.NewlineGetsThrough`.
- A stall shares a square if and only if every cell it can reach was taken, even
  while others are free: `StallPlacement.SharesExactlyWhenFull`;
  `StallExamples.SharingOnARoomyGrid`.
- A newcomer on a square that a later stall would hold does not always move it;
  the exact condition is in `StallPlacement.ArrivalMovesExactly` and
  `StallPlacement.ArrivalOnTheMap`; `StallExamples.NewcomersOnATakenSquare` has
  one newcomer that does and one that does not.
- For NUL-free ask ids, equal canonical bytes mean equal ids but for no ids
  against one empty id; for any ids, they mean equal pieces between NULs:
  `AskIds.EqualBytesExactly`, `AskIds.EqualBytesMeanEqualPieces`;
  `AskIds.NulInAnIdIsAmbiguous`.
- A signed payload decodes to its fields if and only if those behind the first
  hold no colon: `Payloads.DecodeExactly`; `Payloads.UnframedCollides`.
- `last_task_id` is the run that began the chain if that run's stream said so
  with RUN_STARTED, and an older one otherwise: `ClientLineage.TaskIsTheRoot`;
  `ClientLineage.UnannouncedRootFromTheStart`.
- An ask is listed twice if and only if two events announced one tool call that
  was not answered: `ClientLineage.OpenAsksRepeatExactly`;
  `ClientLineage.AnnouncedTwiceIsTwoAsks`.
- A cancel fires a run if and only if the run's entry in the cancel set stands;
  a run id that is live twice at once can lose it:
  `ProbeRuns.CancelFiresExactly`; `ProbeRuns.OverlapLosesTheCancel`.
- Merging history twice changes nothing if and only if every stored message in
  the window has an id: `ThreadHistory.IdempotentExactly`;
  `ThreadHistory.UnmarkedMessageComesTwice`.
- The stored messages come out in thread order if and only if the caller sent
  none from before the window: `ThreadHistory.InThreadOrderExactly`;
  `ThreadHistory.OldMessageLandsBehind`.

## Model

| member | source | states |
|---|---|---|
| `KyokProvider.SocketLLMProvider.Complete` | souk_server/ws_kyok.py:117-143 | opening a completion adds a fresh queue under its id, queues the request, and changes no other completion |
| `KyokProvider.SocketLLMProvider.Feed` | souk_server/ws_kyok.py:172-180 | an item joins the queue of an id in this connection's table, the answer saying whether it did; for any other id nothing changes |
| `KyokProvider.SocketLLMProvider.Dispatch` | souk_server/ws_kyok.py:313-358 | one turn of the read loop feeds the item the frame stands for, or queues the error that names what is wrong with it |
| `KyokProvider.SocketLLMProvider.FailPending` | souk_server/ws_kyok.py:182-188 | every queue in the table gets the disconnect behind what it holds, and the table empties |
| `KyokProvider.SocketLLMProvider.Resume` | souk_server/ws_kyok.py:145-170 | one resumption of the answer generator by an item yields, ends or raises as the head of its own queue says, and leaves the table when it ends |
| `KyokProvider.SocketLLMProvider.TimeOut` | souk_server/ws_kyok.py:145-170 | the gap timeout raises its own fault, takes the id out of the table and no other, whatever is queued, and leaves the stream failed as `KyokLink.TimeoutEnds` says |
| `KyokProvider.SocketLLMProvider.CloseStream` | souk_server/ws_kyok.py:145-170 | a reader that closes takes the id out of the table if it ever iterated, and leaves the table as it was if it did not |
| `KyokLink.TimeoutEnds` | souk_server/ws_kyok.py:160-170 | the gap timeout ends an open stream as timed out and out of the table, its queue and what it yielded and heard as they were, and touches no other stream |
| `KyokLink.CloseEnds` | souk_server/ws_kyok.py:145-170 | a close abandons an open stream; it leaves the table if and only if it was ever read |
| `KyokLink.ReadTakes` | souk_server/ws_kyok.py:155-170 | a read takes the head of the queue: a valid chunk is yielded, and a `done`, a fault or an invalid chunk ends the stream as just that and takes it out of the table |
| `KyokLink.ReadWaits` | souk_server/ws_kyok.py:155-160 | a read of an empty queue changes nothing but that the stream has been read |
| `KyokLink.FrameMeans` | souk_server/ws_kyok.py:313-348 | a chunk, `done` or error frame for an id in the table is that one item more for that stream, by the fields of the frame, and is not answered |
| `KyokLink.StrayFrameMeans` | souk_server/ws_kyok.py:256-358 | an unreadable frame, one of unknown type, one without an id and one for no entry of the table change no stream and are answered by the one error, with the id if there was one |
| `KyokLink.DispatchedOk` | souk_server/ws_kyok.py:313-358 | no inbound frame breaks the stream invariant: yielded then queued is heard, and an ended stream ended on the item after what it yielded |
| `KyokLink.PendingFailedOk` | souk_server/ws_kyok.py:182-188 | teardown keeps the stream invariant |
| `KyokLink.IteratedOk` | souk_server/ws_kyok.py:145-170 | reading a stream keeps the invariant of all of them |
| `KyokLink.TimedOutOk` | souk_server/ws_kyok.py:145-170 | so does a gap timeout at any moment |
| `KyokLink.ClosedOk` | souk_server/ws_kyok.py:145-170 | so does a reader that closes, whether or not it ever iterated |
| `KyokGateway.HeardWasReceived` | souk_server/ws_kyok.py:256-358 | over any run with any number of connections: all a stream ever heard was received on its own connection, after its own request, before that connection ended |
| `KyokGateway.AskOpens` | souk_server/ws_kyok.py:117-143 | over any run: an ask under a new id opens a fresh stream on its connection, in the table, queues the request there, and touches no other connection |
| `KyokGateway.ExchangeCompletes` | souk_server/ws_kyok.py:117-180 | in any run: asked, answered on its own connection by valid chunks and a `done`, and read on, a completion yields just those chunks, ends normally and leaves the table |
| `KyokGateway.TimeoutEndsTheWait` | souk_server/ws_kyok.py:160-170 | in any run: the gap timeout fails an open stream as timed out, takes it out of the table, and nothing else anywhere changes |
| `KyokGateway.CloseAbandons` | souk_server/ws_kyok.py:145-170 | in any run: a close abandons it, out of the table if it was ever read, and nothing else anywhere changes |
| `KyokGateway.CompletionNeedsItsOwnDone` | souk_server/ws_kyok.py:331-332 | a stream ends normally only on what came as a `done` for its id (`OnlyDoneIsDone`), received on the connection its request was written to, after the request |
| `KyokGateway.YieldedWasReceived` | souk_server/ws_kyok.py:319-330 | every chunk yielded was received for it likewise, and is valid |
| `KyokGateway.ForeignAnswerIsRefused` | souk_server/ws_kyok.py:349-358 | a frame on another connection for somebody's request changes no stream and no table; its sender alone is told |
| `KyokGateway.CutStreamEnds` | souk_server/ws_kyok.py:145-188 | once cut, a stream that is read ends within as many reads as its queue is long, without waiting |
| `KyokGateway.QueueReadsOut` | souk_server/ws_kyok.py:145-170 | valid chunks and a terminal in the queue are read out whole and in order, and the stream ends as the terminal says and leaves the table |
| `KyokGateway.HangupCutsEverything` | souk_server/ws_kyok.py:359-367 | teardown leaves no completion waiting: each open stream has its end in its queue and ends within its length |
| `KyokGateway.HangupEndsTheReading` | souk_server/ws_kyok.py:182-188 | in any run: after a hangup a reader that keeps reading is at its end within the reads its queue holds and one more |
| `KyokGateway.ReadingGetsAll` | souk_server/ws_kyok.py:145-170 | in any run: as many reads as a queue of valid chunks and a terminal is long yield all of them and end the stream so |
| `KyokGateway.NothingReadAfterHangup` | souk_server/ws_kyok.py:359-367 | no frame is read off a connection that has ended |
| `KyokRelay.KyokBridge.ServeOne` | souk-client-sdk/souk_client_sdk/kyok_bridge.py:410-463 | one completion served puts out a chunk frame per chunk in order and then the frame of its end, or the malformed-request error alone |
| `KyokRelay.ServedAnswers` | souk-client-sdk/souk_client_sdk/kyok_bridge.py:410-463 | read at the gateway those frames are the handler's chunks and its end, and answer no other request |
| `KyokRelay.GatewayReadConserves` | souk_server/ws_kyok.py:256-358 | receiving moves an item from the wire to its stream and loses none |
| `KyokRelay.BridgeReadConserves` | souk-client-sdk/souk_client_sdk/kyok_bridge.py:364-404 | a request arriving starts its task and touches no other's account |
| `KyokRelay.AfterOk` | souk-client-sdk/souk_client_sdk/kyok_bridge.py:364-463 | in every reachable state, per request: heard, then in transit, then queued at the bridge, is what its own handler produced |
| `KyokRelay.RelayDelivers` | souk-client-sdk/souk_client_sdk/kyok_bridge.py:364-463 | in every reachable state each stream has yielded a prefix of its own handler's chunks, and one that ended done, refused or failed yielded all of them and ended as the handler did |
| `KyokRelay.TasksServeWhatWasAsked` | souk-client-sdk/souk_client_sdk/kyok_bridge.py:385-390 | a task serves, under its id, the very request that was asked |
| `KyokRelay.DrainedMeansDelivered` | souk-client-sdk/souk_client_sdk/kyok_bridge.py:406-463 | with the queues drained, a stream still open has a handler still running and all its chunks delivered |
| `KyokDrains.WiresDrain` | souk-client-sdk/souk_client_sdk/kyok_bridge.py:364-463 | from every reachable state with both ends up, moving frames along and nothing else empties the wires: every request has its task, every task and stream is as it was |
| `KyokDrains.FinishedHandlersAreHeard` | souk-client-sdk/souk_client_sdk/kyok_bridge.py:406-463 | from every such state, an open stream whose handler has ended can be read to its end by moving frames and reading, and has then yielded all its chunks and ended as it did |
| `KyokDrains.CompletionsGetThrough` | souk-client-sdk/souk_client_sdk/kyok_bridge.py:364-463 | in every such state, whatever else is going on, a new valid request can be asked, served with any valid chunks and any end, and read: its reader gets just those |
| `KyokDrains.MalformedRequestsAreTurnedAway` | souk-client-sdk/souk_client_sdk/kyok_bridge.py:410-425 | in every such state a request that does not validate can be asked and read, and fails with those words and no chunk |
| `KyokDrains.MalformedNeverReachesTheHandler` | souk-client-sdk/souk_client_sdk/kyok_bridge.py:410-425 | in no run does the task of such a request have a chunk or another end |
| `KyokDrains.ReaderEndsAtOnce` | souk_server/ws_kyok.py:145-170 | a timeout or a close ends an open stream at once, whatever is under way for it |
| `KyokDrains.HangupsAct` | souk_server/ws_kyok.py:182-188 | the end of the connection at the gateway empties the table and puts its word behind what an open stream holds |
| `KyokDrains.NothingLeavesADeadBridge` | souk-client-sdk/souk_client_sdk/kyok_bridge.py:364-404 | nothing the bridge had queued goes out after its end, and no handler yields any more |
| `Sse.Sse` | souk_server/api_llm_bridge.py:68-77 | the body is the frames of the chunks up to the first failure, then the error, or `[DONE]` if there is none |
| `Sse.CutReadsAsPrefix` | souk_server/api_llm_bridge.py:68-77 | a conforming reader gets the events back, and from a body cut anywhere a prefix of them |
| `Sse.EndsOneWay` | souk_server/api_llm_bridge.py:69-77 | read back, the body is the chunks before the first failure and then one terminal: `[DONE]` if and only if nothing failed, else the error, last |
| `Sse.DoneReachesTheClientOnlyForADone` | souk_server/api_llm_bridge.py:68-77 | over any run of the gateway and any cut of the response, a client that reads `[DONE]` does so because the provider's own connection sent `done` for that request |
| `Sse.DoneMeansCompleted` | souk_server/api_llm_bridge.py:68-77 | `[DONE]` is read only of a stream that ended normally, and of such a stream, whole, always |
| `Sse.StreamReadsBack` | souk_server/api_llm_bridge.py:68-77 | a whole response reads as the texts of the chunks and then `[DONE]`, or the error object with its payload, or nothing, as the stream ended |
| `ProviderOutbox.QueueSurvivesSockets` | souk-agent-sdk/souk_agent_sdk/client.py:489-533 | over any connects and drops, what was enqueued is what the sockets carried one after the other, then the hand, then the queue, missing at most one frame per connection, the last it saw, and none on the open one while its writer lives |
| `ProviderOutbox.NextOk` | souk-agent-sdk/souk_agent_sdk/client.py:600-603 | a lost frame is always the last its socket ever saw |
| `ProviderOutbox.NextSocketCarriesTheQueue` | souk-agent-sdk/souk_agent_sdk/client.py:489-533 | in any run: what waited while no connection was open is carried whole and in order by the next socket, given as many turns of its writer |
| `ProviderOutbox.HandIsDecided` | souk-agent-sdk/souk_agent_sdk/client.py:489-533 | the frame in hand is written if the send returns, lost if it raises, and the writer with it, and either if it is cut off |
| `ProviderOutbox.IdleDropLosesNothing` | souk-agent-sdk/souk_agent_sdk/client.py:489-533 | a connection that ends with nothing in hand loses nothing |
| `ThreadReads.AnswerIsASuffix` | souk_server/ws_provider.py:323-324 | a read answers with the end of the thread: all of it or exactly the last `limit` |
| `ThreadReads.PartiesAloneRead` | souk_server/reads.py:31-53 | a well-posed question is answered with messages exactly when its key serves the thread and the thread is unbound or the key one of its parties; to every other key it is refused in the words for a thread that does not exist |
| `ThreadReads.FirstThingWrong` | souk_server/ws_provider.py:289-309 | a question with something wrong in it is told the first thing wrong, whatever the store holds |
| `ThreadReads.DenialTellsNothing` | souk_server/ws_provider.py:311-321 | no such thread, a thread served by another, and one whose parties exclude the key, all read off the record itself, are one and the same answer, which no thread read out gives |
| `ProviderQueries.SoukProvider.Pose` | souk-agent-sdk/souk_agent_sdk/client.py:255-301 | a question gets a fresh waiter and one frame; no other question changes |
| `ProviderQueries.SoukProvider.ResolveQuery` | souk-agent-sdk/souk_agent_sdk/client.py:303-313 | an answer settles the pending, undecided question it names, and otherwise nothing |
| `ProviderQueries.SoukProvider.FailPendingQueries` | souk-agent-sdk/souk_agent_sdk/client.py:315-327 | every pending, undecided question fails with the reason, decided ones keep their answer, the table empties |
| `ProviderQueries.SoukProvider.Collect` | souk-agent-sdk/souk_agent_sdk/client.py:293-301 | the asker gets what its own waiter was settled with and leaves the table |
| `ProviderQueries.SoukProvider.GiveUp` | souk-agent-sdk/souk_agent_sdk/client.py:293-301 | a timeout or a cancellation, before or after the waiter was settled, ends the wait and leaves the table |
| `ProviderQueries.AnswerSettles` | souk-agent-sdk/souk_agent_sdk/client.py:303-313 | by the fields of the frame: an error fails the pending question, a result settles it, neither counts as no messages; nothing else changes |
| `ProviderQueries.WakingDelivers` | souk-agent-sdk/souk_agent_sdk/client.py:293-301 | a settled asker resumes with what its future holds and leaves the table, one that waits does not resume |
| `ProviderQueries.CuttingEnds` | souk-agent-sdk/souk_agent_sdk/client.py:293-301 | a wait cut short ends as it is told and leaves the table, whatever the future held |
| `ProviderLink.VerdictsAreFinal` | souk-agent-sdk/souk_agent_sdk/client.py:255-327 | whatever happens afterwards, a question's verdict stands |
| `ProviderLink.AnsweredByItsOwn` | souk_server/ws_provider.py:255-324 | the messages an asker gets were read out, in a step of the run and from the store of that step, by a task spawned for this very question |
| `ProviderLink.RefusedByItsOwn` | souk_server/ws_provider.py:304-321 | any failure but the connection's end and the clock is likewise the refusal that a task spawned for this question computed |
| `ProviderDrains.OnlyPartiesGetMessages` | souk_server/reads.py:31-53 | over any run: messages an asker gets are the end of a thread that, in the store and under the key of the step that read it, the key served and was a party of if it was bound |
| `ProviderDrains.QuestionsGetThrough` | souk-agent-sdk/souk_agent_sdk/client.py:255-313 | from every reachable state with the link up, whatever else is asked, answered or left over from earlier sockets: a new question can be carried to the gateway, answered out of any store, and its asker told just that |
| `ProviderDrains.LostQuestionWaits` | souk-agent-sdk/souk_agent_sdk/client.py:489-533 | a question whose frame was lost with its socket still waits, and nothing else is lost with it |
| `ProviderDrains.WaitEnds` | souk-agent-sdk/souk_agent_sdk/client.py:293-327 | in any run: a waiting question ends in the clock's words at a timeout, as stopped when its asker is cancelled, and in the close's words when its connection ends, and leaves the table |
| `ProviderDrains.ConnectStartsAfresh` | souk-agent-sdk/souk_agent_sdk/client.py:489-533 | a new connection has nothing on its wires and leaves every question as it was |
| `ProviderLink.TeardownFailsWhatWaits` | souk-agent-sdk/souk_agent_sdk/client.py:523-533 | the end of a connection fails every question still waiting and leaves none pending |
| `ProviderLink.FailedQuestionsStayFailed` | souk-agent-sdk/souk_agent_sdk/client.py:315-327 | a question failed by teardown never gets messages, even if a stale frame is answered on a later socket; its asker hears of the close, unless its wait was cut short |
| `Verdicts.OfferDesk.Offer` | souk-agent-sdk/souk_agent_sdk/client.py:535-598 | a run frame puts exactly one ack on the queue, naming its run, behind what was queued while the runtime was awaited |
| `Verdicts.AckReadsExactly` | souk_server/ws_provider.py:450-468 | accepted exactly when the field is missing, true, a non-empty string or otherwise truthy; refused exactly when it is not and a non-empty reason came along; declined otherwise; the stand-in reason is never used |
| `Verdicts.OfferIsHeardExactly` | souk-agent-sdk/souk_agent_sdk/client.py:535-598 | the broker hears no for an agent not hosted, a refusal in those words for an envelope that does not validate, and else the runtime's answer, but for a refusal without a reason |
| `Verdicts.OfferIsAckedExactly` | souk-agent-sdk/souk_agent_sdk/client.py:535-598 | the fields of the ack frame in each of these cases |
| `Verdicts.VerdictsArriveExactly` | souk_server/ws_provider.py:568-601 | the gateway reads one answer per offer, in order, under its run id; they are the provider's answers if and only if no refusal lacks a reason |
| `Verdicts.EmptyRefusalIsReoffered` | souk-agent-sdk/souk_agent_sdk/client.py:580-594 | a refusal with an empty reason reads as declined |
| `GatewaySocket.ParseRegistration` | souk_server/ws_provider.py:416-447 | the loop computes the parse of the whole list, returning at the first bad entry |
| `GatewaySocket.ParsedExactly` | souk_server/ws_provider.py:430-447 | a roster parses if and only if every entry is an object that validates with an admitted name; otherwise the complaint is the one for its first entry that is not |
| `GatewaySocket.AgentNameExactly` | souk_server/ws_provider.py:97 | the names the pattern admits are those of the stated rule and, with a newline at the end, each of them again |
| `GatewaySocket.NewlineGetsThrough` | souk_server/ws_provider.py:97 | the name of an `a` and a newline is admitted |
| `GatewaySocket.ProviderSocket.DeclareInterjections` | souk_server/ws_provider.py:184-192 | the table is replaced by what this roster says |
| `GatewaySocket.ProviderSocket.OnRegister` | souk_server/ws_provider.py:532-541 | a roster that parses is declared before the broker is asked; one that does not is answered and leaves everything else |
| `GatewaySocket.ProviderSocket.OnRosterAnswered` | souk_server/ws_provider.py:541-552 | a grant replaces the registered names and is answered with them sorted, a refusal leaves them |
| `GatewaySocket.ProviderSocket.OnDeletionAnswered` | souk_server/ws_provider.py:553-567 | a deletion takes the one name away and is answered; a refused one only is answered |
| `GatewayAnswers.BadRosterIsAnswered` | souk_server/ws_provider.py:416-447 | a `register` frame that does not parse is answered in the words for its first fault and changes nothing else |
| `GatewayAnswers.GoodRosterWaits` | souk_server/ws_provider.py:532-544 | one that parses declares its interjections, queues nothing, and waits for the broker |
| `GatewayAnswers.RosterIsAnswered` | souk_server/ws_provider.py:541-552 | a refusal is passed on and leaves the names; a grant replaces them and is answered with them, sorted |
| `GatewayAnswers.DeletionIsAnswered` | souk_server/ws_provider.py:553-567 | a deletion without a name is answered so; the broker's no is passed on, its yes takes away the one name |
| `GatewayAnswers.OthersAreQueued` | souk_server/ws_provider.py:503-531 | runs, query results and complaints join the queue, each as one frame behind all others |
| `GatewaySocket.SortedSet` | souk_server/ws_provider.py:550-552 | the answer to a grant lists the granted names in order, and the registered set is the set of them |
| `GatewayRoster.TableExactly` | souk_server/ws_provider.py:184-209 | the table lists exactly the roster's names and answers for each with its last entry |
| `GatewayRoster.NamesExactly` | souk_server/ws_provider.py:541-567 | over any run of frames: a name is registered if and only if some grant brought it and no later grant replaced, nor deletion removed it |
| `GatewaySocket.ProviderSocket.TakesInterjections` | souk_server/ws_provider.py:194-209 | the object answers for a name what the interjection table has, and no for one it has not |
| `GatewayRoster.InterjectionsExactly` | souk_server/ws_provider.py:184-209 | over any run of frames: that answer is yes if and only if the last `register` frame that parsed says so of the name |
| `GatewayRoster.SourcesFeedTheTables` | souk_server/ws_provider.py:532-567 | over any run: the interjections are exactly what the last roster that parsed declares; the names are exactly those of the last grant, which answers the last roster before it, minus the ones deleted since |
| `GatewayRoster.TablesPartExactly` | souk_server/ws_provider.py:532-567 | over any run, these two frames are one and the same if and only if no roster was ever declared or the last one declared was granted |
| `GatewayRoster.RefusedRosterStillSpeaks` | souk_server/ws_provider.py:538-544 | after a refused roster the link answers what only that roster said |
| `GatewaySocket.WriteLoop` | souk_server/ws_common.py:72-81 | the writer puts out the frames up to and including the first close, all of them if there is none |
| `GatewaySocket.TurnsAreTheLoop` | souk_server/ws_common.py:72-81 | the atomic turns of the transition system put out what the loop does |
| `GatewaySocket.WireIsEnqueueOrder` | souk_server/ws_provider.py:503-517 | over any run the wire is a prefix of everything enqueued, opens with the welcome, and carries a close only as its last |
| `GatewaySocket.WireIsFinal` | souk_server/ws_common.py:76-80 | nothing goes out after a close, nor after a disconnect |
| `GatewayAnswers.WriterActs` | souk_server/ws_common.py:72-81 | the writer puts out the frame at the head of the queue, and stops behind a close |
| `GatewayAnswers.DisconnectEnds` | souk_server/ws_provider.py:517-520 | a disconnect takes the socket down, after which only runs and query results are still queued |
| `GatewayAnswers.WatcherActs` | souk_server/ws_provider.py:346-367 | a wake asks after the names there are, if any; each answer is recorded, and the last of them puts the watcher back to sleep if any name is listed and queues the close if none is |
| `GatewayWatcher.ClosesOnlyWhenNoneIsListed` | souk_server/ws_provider.py:327-367 | a close is queued only after a wake that found names registered, and the names heard since to be unlisted are exactly those |
| `GatewayWatcher.CloseIsRightExactly` | souk_server/ws_provider.py:348-367 | at the step that queues the close, every registered name was heard to be unlisted since the wake and not granted again after that, if and only if every name with a standing grant since the wake was heard of after that grant |
| `GatewayWatcher.CloseIsRightInTime` | souk_server/ws_provider.py:348-367 | the same, with the condition decided at the grant: the watcher had yet to hear of the name |
| `GatewayWatcher.CloseIsRightWithoutAGrant` | souk_server/ws_provider.py:348-367 | in particular it is so if no roster was granted in between |
| `GatewayWatcher.NeverGrantedNeverClosed` | souk_server/ws_provider.py:346-352 | a link that never had a roster granted is left alone |
| `GatewayWatcher.CloseGoesByTheSnapshot` | souk_server/ws_provider.py:348-367 | a roster of a new name granted during the check does not stop the close |
| `GatewayWatcher.GrantAfterTheHearingIsMissed` | souk_server/ws_provider.py:348-367 | a run of seven steps in which a name heard to be unlisted is granted afresh, and word of another name closes the connection |
| `ProbeRuns.CancelSet.Add` | providers/pod-probe-agent/run.go:91-92 | entering a run's context is the probe's register step: every other run keeps its context and its entry, but for an older one of the same id |
| `ProbeRuns.CancelSet.StartRun` | providers/pod-probe-agent/run.go:86-92 | an acked run is read and registered with a fresh context; one whose ack was not written leaves no trace |
| `ProbeRuns.CancelSet.Remove` | providers/pod-probe-agent/run.go:94-96 | a goroutine's last deferred call is the probe's leave step, entry of its id included, and fires nothing |
| `ProbeRuns.CancelSet.Cancel` | providers/pod-probe-agent/run.go:147-154 | firing what the set holds is the probe's cancel step: the contexts fired afterwards are those of the runs the step says are cancelled, and no other |
| `ProbeRuns.CancelSet.CancelOwn` | providers/pod-probe-agent/run.go:96 | a goroutine's own deferred cancel fires its run's context and no other |
| `ProbeRuns.RunFollowsItsScript` | providers/pod-probe-agent/run.go:86-122 | in every interleaving a run's writes are a prefix of ack, RUN_STARTED, START, CONTENT, END, RUN_FINISHED, finish, all of it once its goroutine has left |
| `ProbeRuns.WritesInOrder` | providers/pod-probe-agent/run.go:98-122 | frame by frame: the first write of a run is its ack, then RUN_STARTED, START, the CONTENT of an answer given to that run in a step before, END, RUN_FINISHED, and the seventh and last its finish |
| `ProbeRuns.WireTellsScripts` | providers/pod-probe-agent/run.go:33-122 | by run id, as long as an id is not live twice at once and its writes succeed, the wire is whole scripts one after the other, only the last perhaps unfinished |
| `ProbeRuns.WritesTellScripts` | providers/pod-probe-agent/run.go:33-122 | the same of the writes attempted, whether or not they succeed |
| `ProbeRuns.CancelFiresExactly` | providers/pod-probe-agent/run.go:86-154 | over any run of steps, a cancel fires a run if and only if some step entered it under that id and no later one entered or let leave a run of the id; such a run is live |
| `ProbeRuns.OwnCancelFires` | providers/pod-probe-agent/run.go:94-96 | a goroutine that has written its finish fires its own context and no other, and no step but this and a cancel frame fires any |
| `ProbeRuns.CancelFiresTheLiveRun` | providers/pod-probe-agent/run.go:130-154 | for an id never live twice at once that is its live run, if it has one |
| `ProbeRuns.OverlapLosesTheCancel` | providers/pod-probe-agent/run.go:94-96 | a run of steps in which one id is offered twice, the first run ends, and a cancel does nothing to the second, which is live |
| `ClientLineage.SoukClient.Run` | souk-client-sdk/souk_client_sdk/client.py:290-346 | a call leaves the fields as the batch reading of its events says, wherever the stream stops or raises |
| `ClientLineage.SoukClient.OnEvent` | souk-client-sdk/souk_client_sdk/client.py:317-346 | after each event the online tracker agrees with the batch definitions over the events so far |
| `ClientLineage.OpenAsksExactly` | souk-client-sdk/souk_client_sdk/client.py:325-345 | after a finish an ask is listed if and only if it is a tool call announced and not answered, or an interrupt has it as its tool call's id or, for want of one, as its own |
| `ClientLineage.WithInterruptsExactly` | souk-client-sdk/souk_client_sdk/client.py:335-345 | interrupts join behind the calls, each ask once, under the tool call's id or for want of one their own, and repeat nothing |
| `ClientLineage.OneInterruptMore` | souk-client-sdk/souk_client_sdk/client.py:338-345 | one more interrupt adds its ask at the end, and nothing if that is listed already, as an unanswered call or by another interrupt |
| `ClientLineage.AnnouncedLastStandsLast` | souk-client-sdk/souk_client_sdk/client.py:325-345 | calls are listed in the order they were announced |
| `ClientLineage.LastFinishDecides` | souk-client-sdk/souk_client_sdk/client.py:329-345 | the last RUN_FINISHED alone decides what is listed; without one nothing is |
| `ClientLineage.FieldsExactly` | souk-client-sdk/souk_client_sdk/client.py:290-324 | thread, run and task ids by the last RUN_STARTED read, with what each falls back on, and left alone by a call that never connected |
| `ClientLineage.OpenAsksRepeatExactly` | souk-client-sdk/souk_client_sdk/client.py:325-345 | an ask repeats if and only if two events of the prefix announce one tool call that none of it answers |
| `ClientLineage.AnnouncedTwiceIsTwoAsks` | souk-client-sdk/souk_client_sdk/client.py:325-345 | one tool call announced twice is listed twice |
| `ClientLineage.FailedCallsLeaveNoTrace` | souk-client-sdk/souk_client_sdk/client.py:293-316 | calls whose connection never opened might as well not have been made |
| `ClientLineage.TaskIsTheRoot` | souk-client-sdk/souk_client_sdk/client.py:115-132 | over any sequence of calls `last_task_id` is the run that began the chain of calls each following, on its thread, one that left asks open |
| `ClientLineage.TaskIsTheRootOfWhatConnected` | souk-client-sdk/souk_client_sdk/client.py:290-324 | the same with failed connections in between |
| `ClientLineage.UnannouncedRootIsStale` | souk-client-sdk/souk_client_sdk/client.py:318-324 | a chain whose root never said RUN_STARTED carries an older task |
| `ClientLineage.UnannouncedRootFromTheStart` | souk-client-sdk/souk_client_sdk/client.py:318-324 | three calls of a fresh client that end so |
| `Fnv.HashFingerprint` | souk-directory/src/layout.ts:24-31 | the loop computes 32-bit FNV-1a over the UTF-16 code units |
| `Fnv.XorBitwise` | souk-directory/src/layout.ts:27 | the exclusive or of the model is the exclusive or, bit by bit |
| `StallExamples.HashOfDigit` | souk-directory/src/layout.ts:24-31 | the hashes of "1", "3" and "5", as numbers |
| `Fnv.StepInjective` | souk-directory/src/layout.ts:26-29 | a step of the hash loses neither the state nor the character |
| `Fnv.OneCharacterTellsApart` | souk-directory/src/layout.ts:21-31 | texts that differ in exactly one character never hash alike |
| `Residues.OrbitIsClass` | souk-directory/src/layout.ts:64-67 | the cells a probe visits are exactly the home cell's residue class modulo gcd(stride, cells), and it comes home after `cells` steps |
| `StallPlacement.Probe` | souk-directory/src/layout.ts:60-67 | hash, stride and walk give the specified cell, in range |
| `StallPlacement.HomeExactly` | souk-directory/src/layout.ts:60-63 | the walk starts at the remainder of the hash by the number of cells |
| `StallPlacement.StrideExactly` | souk-directory/src/layout.ts:60-63 | its stride is one more than what the hash without its lowest byte leaves over the cells but one, and one on a single cell |
| `StallPlacement.PlaceStalls` | souk-directory/src/layout.ts:50-71 | every stall of the sorted roster stands at the column and row of its square, within the grid; on a grid without cells none has coordinates |
| `StallPlacement.SpotExactly` | souk-directory/src/layout.ts:60-67 | the probe takes the first free cell of its residue class in visiting order, and falls back to the home cell exactly when the class is full |
| `StallPlacement.SharesExactlyWhenFull` | souk-directory/src/layout.ts:57-70 | a stall shares a square if and only if every cell it can reach was taken before its turn |
| `StallPlacement.RoomForAllMeansDistinct` | souk-directory/src/layout.ts:57-70 | n stalls with n * gcd(stride, cells) <= cells for each get pairwise distinct squares |
| `StallExamples.SharingOnARoomyGrid` | souk-directory/src/layout.ts:50-71 | stalls "1", "3" and "5" on two by two cells stand on 0, 2 and 0 |
| `StallExamples.NewcomersOnATakenSquare` | souk-directory/src/layout.ts:41-43 | of two newcomers that take a later stall's square one moves it and one does not |
| `StallPlacement.RosterOrderIsIrrelevant` | souk-directory/src/layout.ts:36-41 | the same stalls give the same map whatever the order of the roster |
| `StallPlacement.OneMoreTaken` | souk-directory/src/layout.ts:64-68 | one more taken cell moves a probe exactly when it stood there and is not thrown back on it |
| `StallPlacement.ArrivalMovesExactly` | souk-directory/src/layout.ts:41-43 | exactly when a newcomer moves somebody; never if no later stall held its square without it |
| `StallPlacement.ArrivalOnTheMap` | souk-directory/src/layout.ts:36-43 | the same, both ways, for two rosters in any order |
| `AskIds.SortStrings` | providers/pod-probe-agent/wire.go:85-87 | the array is sorted in place by the order of `Texts.LexExactly`, with the same elements |
| `Texts.LexExactly` | providers/pod-probe-agent/wire.go:83-87 | the order of ids is that of a dictionary: a text before its own extensions, and else by the first difference |
| `AskIds.ResolvePreimage` | providers/pod-probe-agent/wire.go:85-88 | the bytes are the ids, sorted so, joined by NUL, and the caller's slice is unchanged |
| `AskIds.CanonicalIgnoresOrder` | providers/pod-probe-agent/wire.go:76-80 | the order the ids arrived in does not matter |
| `AskIds.SplitGivesSorted` | providers/pod-probe-agent/wire.go:74-88 | splitting at NUL gives the sorted ids back |
| `AskIds.EqualBytesExactly` | providers/pod-probe-agent/wire.go:74-88 | for NUL-free ids equal bytes mean equal multisets, but for no ids against one empty id |
| `AskIds.EqualBytesMeanEqualPieces` | providers/pod-probe-agent/wire.go:74-88 | for any ids at all, equal bytes mean that the sorted ids, cut at every NUL, consist of the same pieces |
| `AskIds.NulInAnIdIsAmbiguous` | providers/pod-probe-agent/wire.go:74-88 | with a NUL in an id two different lists share their bytes |
| `Utf8.EncodeKeepsOrder` | providers/pod-probe-agent/wire.go:83-84 | byte-wise order of UTF-8 is code-point order |
| `Utf8.BytesAreUtf8` | providers/pod-probe-agent/wire.go:83-84 | the encoding is the table of section 3 of RFC 3629: how many bytes, their leading bits, and the number the other bits make up |
| `Utf8.BytesAndPointsAgree` | providers/pod-probe-agent/wire.go:76-84 | a signer sorting bytes and one sorting code points hash the same bytes |
| `Payloads.IntegerReadsDecimal` | providers/pod-probe-agent/wire.go:60-62 | decimal timestamps are read back exactly, and nothing else reads as them |
| `Payloads.DigitsInTens` | providers/pod-probe-agent/wire.go:60-62 | one more digit behind a number makes ten times that number and the digit |
| `Payloads.BytesOnTheWire` | providers/pod-probe-agent/wire.go:42-103 | the bytes of each of the seven families, written out: tag, fields and colons in their order |
| `Payloads.FamiliesApart` | providers/pod-probe-agent/wire.go:90-96 | no two payload families ever yield the same bytes, whatever the fields |
| `Payloads.DecodeExactly` | providers/pod-probe-agent/wire.go:42-103 | a text decodes to a payload if and only if the payload's fields behind the first are colon-free and the text is what its builder prints |
| `Payloads.EncodeInjective` | providers/pod-probe-agent/wire.go:42-103 | so equal bytes mean equal payloads |
| `Payloads.UnframedCollides` | providers/pod-probe-agent/wire.go:52-54 | a colon in a later field makes two payloads collide |
| `PresenterProof.HeaderProvesExactlyItsBody` | souk-agent-sdk/souk_agent_sdk/a2a_client.py:93-136 | the header an identity makes names it at the gateway for the very bytes signed, inside the window, and nobody for any others |
| `PresenterProof.NamedExactlyWhenSigned` | souk_server/presenter.py:81-115 | a key is named if and only if the header carries that key's own signature over tag, key, timestamp and body hash, at a timestamp inside the window |
| `PresenterProof.NoOtherSignatureServes` | souk_server/presenter.py:81-115 | a signature over any other framed payload, of any family, is no presenter proof |
| `PresenterProof.ChainsArriveWithAPresenter` | souk-agent-sdk/souk_agent_sdk/a2a_client.py:139-166 | a request with a chain either stays home or arrives, unaltered, with a presenter the gateway can name; one without a chain always leaves, unaltered |
| `Routes.OneRoutePerLeaf` | souk-directory/src/agent.ts:276-281 | one route per leaf, ending there, from left to right |
| `Routes.RoutesAreTheWalks` | souk-directory/src/agent.ts:276-281 | the routes are exactly the walks from the root to a leaf |
| `Routes.EveryEdgeIsDrawn` | souk-directory/src/agent.ts:260-275 | every edge of the tree is on some route |
| `Routes.NoEdgeIsInvented` | souk-directory/src/agent.ts:273-275 | every arrow on a route is an edge of the tree |
| `Routes.MergeRebuilds` | souk-directory/src/agent.ts:260-281 | with distinct sibling ids, merging a forest's routes by shared prefix gives the forest |
| `Routes.RoutesDetermineTheTree` | souk-directory/src/agent.ts:10-20 | hence a tree's routes determine it |
| `ChatTranslation.RunStream` | providers/openai-compat-agent/openai_compat_agent/main.py:57-104 | the nested loops emit the run's beginning, its text and the ending that fits, and the events tell what upstream sent as `ChatTranslation.NothingSaidIsLost` states it |
| `ChatTranslation.EventsAreGrammatical` | providers/openai-compat-agent/openai_compat_agent/main.py:57-104 | whatever upstream sends and wherever it breaks, the events are a complete sentence of the grammar |
| `ChatTranslation.NothingSaidIsLost` | providers/openai-compat-agent/openai_compat_agent/main.py:70-104 | by positions of what upstream sent: the deltas read back are the non-empty contents before the first element that breaks or says `[DONE]`, in order; a break or an unreadable choice ends the run in its one RUN_ERROR with neither END nor RUN_FINISHED, anything else in RUN_FINISHED without an error |
| `ChatTranslation.NothingBehindIsRead` | providers/openai-compat-agent/openai_compat_agent/main.py:79-98 | nothing behind `[DONE]`, a break or an unreadable chunk makes any difference |
| `ThreadHistory.NothingIsLost` | providers/pydantic-ai-agent/pydantic_ai_agent/history.py:78-88 | the merge is the window, then the caller's messages at exactly the places where the id is not in the window, in the caller's order and as often; one left out is in the window under its id |
| `ThreadHistory.LeftAloneExactly` | providers/pydantic-ai-agent/pydantic_ai_agent/history.py:67-88 | the input is left alone without a limit, a thread, a link or an answer, and when the thread is empty; else its messages alone are replaced, by the merge |
| `ThreadHistory.NoIdTwice` | providers/pydantic-ai-agent/pydantic_ai_agent/history.py:48-55 | no id appears twice if neither input repeats one |
| `ThreadHistory.IdempotentExactly` | providers/pydantic-ai-agent/pydantic_ai_agent/history.py:78-88 | merging again changes nothing if and only if every stored message in the window has an id |
| `ThreadHistory.UnmarkedMessageComesTwice` | providers/pydantic-ai-agent/pydantic_ai_agent/history.py:78-88 | a stored message without one is there twice after a second merge |
| `ThreadHistory.InThreadOrderExactly` | providers/pydantic-ai-agent/pydantic_ai_agent/history.py:57-60 | the stored messages come out in thread order if and only if no caller message is stored before the window |
| `ThreadHistory.OldMessageLandsBehind` | providers/pydantic-ai-agent/pydantic_ai_agent/history.py:57-60 | with a window of one, the first of two messages lands behind the second |
| `ThreadHistory.HistoryOverTheLink` | providers/pydantic-ai-agent/pydantic_ai_agent/history.py:67-88 | over any run of the link: a question that brought messages gives the merge with the last `limit` messages of the store its own task read, one that failed leaves the caller's input as it was |

## Left out

- The broker, tickets, chain verification, `ProviderRuntime` and `CompletionRelay` belong to a package whose source is not part of this model; their answers are arbitrary inputs, except that `CompletionRelay` is taken to pass chunks on and put a failure last.
- Handshakes, tickets, websocket close codes, HTTP, TLS, database access and JSON or schema validation; a frame is a record that has been parsed, and validation is a flag or an optional problem on it.
- `register` and `deleteModel` frames on the completion socket, which touch only its outbound queue and the offerings the broker keeps.
- Signatures and hashes are ideal: a signature can only be made by the key it names, and the body hash is an injective function with colon-free output. The freshness window is an arbitrary predicate on timestamps.
- Awaits inside one `query` task: the task reads the store at one moment.
- Ids that are drawn at random (request ids, query ids) are taken to be fresh: `Complete` and `Pose` require it of the id they are given, and an `Ask` or `Pose` step with a used id does nothing.
- Waiting times: a gap timeout, a query timeout and the watcher's wake may come at any moment of the wait, which includes every moment the clock allows.
- `localeCompare` is taken as the lexicographic order of code units, which is what it is on the lower-case hex fingerprints the directory uses.
- What becomes of a stall that `placeStalls` puts on a grid without cells, beyond its having no coordinates.
- Interleaved `run` calls on one `SoukClient`; its calls come one after the other here.
- Frames the probe cannot parse: it answers them with an error, or with a refusing ack for a run it never starts.
- Acks whose `runId` the contract's own model would reject; the gateway answers those with an error and no verdict.
- A probe whose ack could not be written starts nothing and is one step that changes nothing; JSON encoding failures of its frames are write failures.
- KyokRelay.RelayDelivers: a handler's exception that happens to carry the gateway's own disconnect message stays distinguishable here, because faults are constructors, not strings.
- Event streams are read with line feeds as the only line ends, since JSON text carries no bare carriage return or line feed; a leading byte order mark is not modelled.
- The `name` and `runId` that some error frames carry beside their message.
- Error and log wording that carries a library's own message (validation errors, broker refusals) is an opaque string.
- Agent cards, discovery, roster grouping and name lookup, reconnect backoff, environment settings, the error-to-status table, DOM rendering, and the probe's own file and process inspection: little state and nothing that spans functions.
