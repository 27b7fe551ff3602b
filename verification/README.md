# Verified models of the event streams, queues and checkers

This project models, in Dafny, the parts of the application whose correctness rests on order,
interleaving or byte layout, and proves what they promise. `dafny verify dfyconfig.toml` checks it.

**Event streams.** Four readers decode one event-stream format and cut their buffers in different ways.
The common meaning is in `SseText` and `SseEvents`: a stream is content interrupted by maximal runs of
CR and LF characters, and an event ends exactly where such a run contains LF LF, CR CR or CRLF CRLF.
`SseStream` is the incremental leftmost decoder, `LastSeparator`, `Assist` and `Chat` the two readers
that cut at the last separator, `Agent` and `Room` the two that dispatch what the decoder yields, with
failures, terminal events and aborts. Each is proved against that meaning for every chunking, chunks
that cut inside a separator included. `Standard` is the line-by-line machine of sections 9.2.5 and 9.2.6
of the WHATWG HTML standard, `StandardAgreement` says when the two agree, and `RoundTrip` prints events
and decodes them again, `WrittenLines` does so for blocks written in any of the ways the format allows.
`ChatEvents` and `RoomOutcomes` tell results by event names and raw frames. `Callbacks` says what a
callback that may throw is given.

**Concurrent state machines**, as steps that can come in any order. `Settings` and `Client` are the
settings write queue and the backend's port, `BackendPort` the two together, `SettingsHistory` tells its
answers by the steps since a post; `VideoJob` and `Pipeline` the sidecar's video job and GPU dispatcher;
`Cdp` and `CdpObservers` the request multiplexer and its event observers; `CampaignCommits` the
optimistic-revision and receipt protocol, with its answers in `CampaignReplies`. Each has a value-level
step function, a class whose methods are proved to make exactly those steps, and theorems about all
runs.

**Parsers and checkers.** `Png`, `Webp` and `RasterHeader` read image headers, against printers of chunk
lists (RFC 2083, RFC 9649, RFC 6386). `Spans`, `Escaping`, `EscapedText`, `SimpleSpans` and `TagNesting`
are the passes that turn a line of markdown into HTML. `Evidence` is the checker of a campaign run's
evidence.

## What turned out not to hold

Each of these has a concrete run as a lemma and the exact condition beside it.

- Chat: what follows a `done` in the same cut is still handled, so the result can depend on the
  chunking (`ChatChunking.DeltaAfterDone`, `ChatChunking.ChunkingIndependentIff`).
- Decoder: whether the size bound throws depends on the chunking
  (`SseStream.OverflowDependsOnChunking`, `SseStream.OverflowIff`).
- Parser: four mixed runs of line ends, such as LF CRLF, hold a blank line for the standard and no
  separator for the parser, although the parser's comments name the standard
  (`StandardAgreement.MixedRunsDisagree`, `StandardAgreement.AgreesIff`).
- Port: a call can wait for its whole timeout with the port known, and an older answer can replace an
  announced port, so that writes go to it (`Client.AnnouncedInBetween`, `Client.StrandsIff`,
  `Client.PortReplacedIff`, `BackendPort.OlderPortArises`, `BackendPort.MissedIff`, `BackendPort.WrongPortIff`).
- Video: a cancellation answered as found need not cancel (`VideoJob.FoundIsNotCancelled`,
  `VideoJob.CancelledIff`).
- Dispatcher: after a failed load the note can name a backend that is not resident, which then cannot
  generate (`Pipeline.StaleArises`, `Pipeline.BecomesStaleIff`, `Pipeline.WorkingBackendFailsIff`).
- Observers: cancelling a subscription twice can silence others (`CdpObservers.CancellingTwiceSilences`,
  `CdpObservers.UnsubscribeIff`).
- Receipts: the keys of two campaigns clash when one id continues the other after a colon
  (`CampaignCommits.ShutOutArises`, `CampaignCommits.NewCommitRefusedIff`, `CampaignCommits.KeysClashIff`).
- Escaping: the inserted tags of different kinds can cross (`TagNesting.TagsCross`, `TagNesting.NestsIff`).

## Model

| member | source | states |
|---|---|---|
| `SseText.FirstSepStable` | src/api/sseStream.ts:29-45 | a leftmost separator found in a buffer stays leftmost, with the same length, when more text arrives: a pair of CRLFs cut in two hides no shorter separator |
| `SseText.SplitExtends` | src/api/sseStream.ts:29-45 | scanning an extended buffer only ever splits the unterminated rest again |
| `SseText.CutAfterSep` | src/api/sseStream.ts:29-45 | cutting the stream just after any separator, leftmost or not, cuts its segments in two and loses nothing |
| `SseText.ScanSepFree` | src/api/sse.ts:24-27 | a text without a separator is one segment: itself less its outer line ends |
| `SseEvents.SplitMeaning` | src/api/sse.ts:23-35 | splitting at leftmost separators and dropping the last piece gives the events of the stream read as content between runs of line ends, a run being a boundary exactly when it contains a separator |
| `SseEvents.ParseSseEvents` | src/api/sse.ts:23-35 | the loop over the blocks returns exactly those complete events, for any text |
| `SseEvents.FirstBlock` | src/api/sse.ts:23-35 | the first separator ends the event of the text before it, whatever follows |
| `SseEvents.ParseBlock` | src/api/sse.ts:37-81 | the loop over the lines returns the event of the block: last name, data lines joined, none without a name |
| `SseEvents.SplitLinesContent` | src/api/sse.ts:37-81 | splitting at CRLF, CR or LF and skipping empty lines gives the maximal pieces without line-end characters |
| `WrittenLines.ReadsAsWritten` | src/api/sse.ts:37-72 | a stream of blocks, each line written as name:value or name: value or as a bare name, among comments and other fields, is read as the last name and the data values written, exactly one space after the colon being dropped; a block without a name gives no event |
| `WrittenLines.DecodesAsWritten` | src/api/sseStream.ts:17-46 | so it is decoded, in whatever chunks it arrives |
| `SseEvents.BlankBlock` | src/api/sse.ts:30-30 | skipping blank blocks skips no event |
| `SseEvents.BlockThenRun` | src/api/sseStream.ts:35-37 | a separator-free block followed by any run of line ends denotes the event of the block itself |
| `SseStream.BlockClosed` | src/api/sseStream.ts:36-42 | re-appending a blank line to a separator-free block parses to exactly its own event or to none, never to a second one |
| `SseStream.SseStreamDecoder.Push` | src/api/sseStream.ts:17-21 | push returns the events that the new text completes, or throws exactly when the buffer is too long; the buffer becomes the rest of all that was seen |
| `SseStream.SseStreamDecoder.Finish` | src/api/sseStream.ts:23-27 | finish returns also the event of the unterminated rest |
| `SseStream.SseStreamDecoder.Consume` | src/api/sseStream.ts:29-46 | the exec loop consumes exactly the complete blocks of the buffer, in order |
| `SseStream.PushMeaning` | src/api/sseStream.ts:29-46 | the events of a push are those that everything seen completes and did not complete before |
| `SseStream.ParseIfNotBlank` | src/api/sseStream.ts:36-36 | the trim guard loses no event |
| `SseStream.ChunkIndependence` | src/api/sseStream.ts:17-46 | for every cutting into chunks, a run that does not throw delivers the events of the whole stream given in one piece, the open one at finish included; without a bound no run throws |
| `SseStream.OverflowIff` | src/api/sseStream.ts:13-21 | a run throws exactly when some chunk does not fit beside the unterminated rest of the text before it |
| `SseStream.NoChunkingOverflowsIff` | src/api/sseStream.ts:13-21 | no cutting of a text throws exactly when the text itself is no longer than the bound |
| `SseStream.OverflowDependsOnChunking` | src/api/sseStream.ts:13-21 | one text, cut in two, passes the bound that it exceeds in one piece |
| `LastSeparator.LastSepEnd` | src/api/characterAssist.ts:106-117 | the greatest end of a separator in the buffer, over the three kinds, or none when there is no separator |
| `LastSeparator.CutStep` | src/api/characterAssist.ts:79-96 | cutting at the last separator end moves exactly the newly completed events out and leaves a separator-free buffer |
| `LastSeparator.CutHoldsAll` | src/api/characterAssist.ts:79-96 | all that was cut off so far holds exactly the complete events of all that was read |
| `LastSeparator.TailIsNewlineOnly` | src/api/characterAssist.ts:79-96 | what re-splitting the cut part at leftmost separators leaves as its last piece is newline-only |
| `Assist.Handle` | src/api/characterAssist.ts:88-95 | the handler is called on the envelopes of a part up to and including the first at which it stops or throws, and a throw ends the part |
| `Assist.AnswersTell` | src/api/characterAssist.ts:79-104 | by the answers alone: the first that stops or throws ends the calls, a throw is reported, and without either all envelopes are handled and a failed read is reported |
| `Assist.Consume` | src/api/characterAssist.ts:72-104 | for every chunking, a read failure at any point and any handler, it is called on exactly the decoded envelopes up to and including the first at which it stops or throws; a throw is what the call ends with |
| `Chat.HandleBlock` | src/api/chat.ts:131-155 | one cut part is handled event by event: deltas, the last done reason, an error that throws after the deltas before it, or the first delta at which the callback throws |
| `Chat.StreamChat` | src/api/chat.ts:80-109 | for every chunking and any callback the deltas and the result are those of the events read until the first cut that holds a done or an error, or until the callback throws |
| `ChatEvents.StreamTold` | src/api/chat.ts:80-155 | by the event names, for every chunking and any callback: the deltas are the parsed texts before the first event named done or error; an error rejects with its parsed code and message or the provider defaults, a done with nothing known after it resolves with its reason or stop, and a stream with neither is disconnected |
| `ChatChunking.QuietIsIdeal` | src/api/chat.ts:85-109 | when nothing after the first done changes what is delivered (done last, in particular), every chunking delivers the deltas and the reason up to it |
| `ChatChunking.ChunkingIndependentIff` | src/api/chat.ts:85-109 | the result is independent of the chunking exactly for such streams: any other has two chunkings that deliver differently |
| `ChatChunking.DeltaAfterDone` | src/api/chat.ts:85-109 | a stream of a done and a delta delivers the delta in one chunk and not in two |
| `Agent.Dispatch` | src/api/agent.ts:82-112 | one batch, after all before it: what decodes goes to onEvent until it throws or until the first error event, which is thrown; terminal is set by the three events that end a turn |
| `Agent.StreamAgentTurn` | src/api/agent.ts:75-135 | for every chunking onEvent gets exactly the events that decode before the first error, or up to the first at which it throws, and the call returns exactly when it does not throw, there is no error event and some event ended the turn |
| `Agent.BeforeErrorConcat` | src/api/agent.ts:114-132 | later events change nothing after an error and are delivered after the earlier ones otherwise |
| `Agent.TurnTells` | src/api/agent.ts:90-132 | by the kinds: the events before the first error are delivered, an error fails the turn, and without one it completes exactly when an agent_done, done or agent_needs_input decoded |
| `Room.RoomStream.Dispatch` | src/api/roomStream.ts:46-65 | frames are handled one by one: reasoning skipped, the first unacceptable one thrown, nothing after an abort, terminal set before delivery, what onEvent throws thrown, an agent error delivered and then thrown |
| `Room.RoomStream.OnMessage` | src/api/roomStream.ts:66-79 | a chunk of this stream is decoded and dispatched unless the signal is aborted or a callback failed; a foreign chunk does nothing |
| `Room.RoomStream.OnBadMessage` | src/api/roomStream.ts:66-79 | a message that is no chunk becomes the callback failure |
| `Room.RoomStream.OnAbort` | src/api/roomStream.ts:80-80 | an abort stops all further delivery |
| `Room.RoomStream.OnComplete` | src/api/roomStream.ts:88-101 | when the native call ends: the callback failure first, then the abort, then the last flush, then whether the turn was ended; an error of the flush keeps its own code if it has one |
| `Room.RoomStream.OnBreak` | src/api/roomStream.ts:88-101 | when it breaks: the callback failure, the abort, the native code if it is one, the general failure |
| `RoomProps.StepKeepsInv` | src/api/roomStream.ts:41-106 | every message, own or foreign, every abort and every end of the call keeps the stream invariant |
| `RoomProps.DeliversPrefix` | src/api/roomStream.ts:41-106 | over every order of chunks, aborts and completion, what is delivered is a prefix of what the raw frames tell: a reasoning_text nothing, in a subscription a room_update of this room its update, in a turn a frame that decodes its event; any other frame, or an agent error once delivered, ends it |
| `RoomProps.NothingAfterHalt` | src/api/roomStream.ts:41-106 | after the first failure, an abort or the settlement nothing more is delivered and the outcome stays |
| `RoomProps.ResolvesOnlyWhenDone` | src/api/roomStream.ts:41-106 | a stream resolves only after delivering an event that ends the turn |
| `RoomProps.SubscribeNeverResolves` | src/api/roomStream.ts:41-106 | a subscription never resolves |
| `RoomProps.ResolvesIff` | src/api/roomStream.ts:41-106 | for any onEvent the end of the call resolves a stream exactly when it is live, the last text fits the buffer, no frame handled fails (refused, an agent error, or onEvent throws at it) and one of them ends the turn; the frames handled are those through the first that fails or at which onEvent aborts |
| `RoomProps.QuietResolvesIff` | src/api/roomStream.ts:41-106 | so with an onEvent that does neither, exactly when no frame is refused or an error and one ends the turn |
| `RoomOutcomes.LiveDelivers` | src/api/roomStream.ts:46-65 | while a stream is live, all its frames can be delivered or are reasoning texts, and exactly they have been |
| `RoomOutcomes.OwnRoomOnly` | src/api/roomStream.ts:46-65 | whatever arrives, a subscription delivers only updates of its own room |
| `RoomOutcomes.ChunkTells` | src/api/roomStream.ts:66-79 | what a chunk delivers, and the failure it leaves: too long a buffer, the code of what a frame or onEvent threw, or that the stream is invalid |
| `RoomOutcomes.OthersTell` | src/api/roomStream.ts:66-79 | a foreign chunk changes nothing, a message that is no chunk makes the stream invalid, an abort sets the flag |
| `RoomOutcomes.StartTells` | src/api/roomStream.ts:37-37 | a call with an aborted signal is rejected as cancelled at once |
| `RoomOutcomes.CompleteTells` | src/api/roomStream.ts:82-101 | how the promise settles when the native call resolves, in every case, with the codes written out |
| `RoomOutcomes.BreakTells` | src/api/roomStream.ts:82-101 | and when it rejects, a string that looks like a native code being kept |
| `StandardAgreement.BlockAgreesIff` | src/api/sse.ts:37-72 | parser and standard (WHATWG HTML section 9.2.6) give the same event for a block exactly when it has a name and data, or neither |
| `Standard.RunBoundaryIff` | src/api/sse.ts:21-35 | a run of line ends dispatches for the standard exactly when it contains a separator or is one of the four mixed runs, never both |
| `StandardAgreement.StandardByBlocks` | src/api/sse.ts:21-35 | for any stream the line-by-line machine dispatches block by block, its blocks being the content between runs with two line ends or more |
| `StandardAgreement.MixedRunDiffers` | src/api/sse.ts:21-35 | after a block with data each mixed run makes the standard dispatch an event that the parser does not return |
| `StandardAgreement.MixedRunsDisagree` | src/api/sse.ts:21-35 | four streams of one event on which the two disagree |
| `StandardAgreement.AgreesIff` | src/api/sse.ts:21-81 | when every block of the standard names an event and has data, the parser returns what the standard dispatches if and only if no run of line ends after content, inside the stream or at its end, is a mixed one |
| `StandardAgreement.AgreesWithStandard` | src/api/sse.ts:21-81 | without mixed runs, and with a name and data in every complete block or neither, the parser returns the events that the standard dispatches |
| `StandardAgreement.UniformAgrees` | src/api/sse.ts:21-81 | the same for streams with one uniform line ending |
| `Standard.ReadsLines` | src/api/sse.ts:51-59 | the standard read character by character, a CRLF being one line end, is the standard read line by line |
| `RoundTrip.PrintParse` | src/api/sse.ts:23-81 | parsing the print of any list of events with one-line names and CR-free data, multi-line data included, returns the list |
| `RoundTrip.PrintDecodeRoundTrip` | src/api/sseStream.ts:17-46 | so does decoding the print, in whatever chunks it arrives |
| `Settings.SettingsQueue.InvalidateBackendSettings` | src/api/settings.ts:214-217 | the generation grows and the acknowledged pair is dropped |
| `Settings.SettingsQueue.WriteSettings` | src/api/settings.ts:234-241 | the body is captured at the call and the operation queued last |
| `Settings.SettingsQueue.OnUrlReady` | src/api/settings.ts:242-253 | with its url known an operation skips its POST, if not forced and the very pair is acknowledged, or posts with the generation current then |
| `Settings.SettingsQueue.OnReply` | src/api/settings.ts:254-269 | a reply is a timeout, a refusal, a changed generation, or acknowledged and recorded, in this order of tests |
| `Settings.SettingsQueue.OnFetchFails` | src/api/settings.ts:270-276 | a broken request rejects as a timeout once aborted, as a network failure otherwise |
| `Settings.StepKeepsInv` | src/api/settings.ts:209-280 | every step keeps the queue invariant |
| `Settings.AcknowledgementSoundness` | src/api/settings.ts:209-280 | in every reachable state the applied settings are exactly the url and body of the latest acknowledged write of the current generation, and whoever skipped its POST had the url and body of the latest one of its generation then |
| `Settings.ChangedInFlight` | src/api/settings.ts:209-280 | whatever follows, a write whose generation changed in flight is never acknowledged, and once it has settled it is rejected |
| `Settings.QueueOrder` | src/api/settings.ts:234-280 | at most one POST is in flight; POSTs are made in call order, each with the body captured at its call |
| `Settings.SettlesOnce` | src/api/settings.ts:234-280 | an operation settles at most once, and what was captured, sent or accepted never changes |
| `Settings.FailureGivesWay` | src/api/settings.ts:234-280 | by whatever step an operation settles, changed generations and late timeouts included, the next one can start with the body of its own call; one that was rejected has sent, recorded and acknowledged nothing in that step |
| `SettingsHistory.AnswerTells` | src/api/settings.ts:254-276 | a reply or a failure of the request in flight settles it by the steps since its post: a timeout first, then a broken request, a refusal, a new generation, and else an acknowledgement, which alone is recorded, as what was posted |
| `SettingsHistory.AcknowledgedIff` | src/api/settings.ts:254-276 | an acknowledgement is recorded exactly at an accepting reply to a request in flight since whose post neither a timeout nor a new generation came |
| `SettingsHistory.UrlTells` | src/api/settings.ts:242-253 | with its url an operation is skipped exactly when it is not forced and the pair was acknowledged last, in this generation; else it posts |
| `SettingsHistory.TurnTells` | src/api/settings.ts:242-253 | an operation begins when its turn comes, and is rejected when its url cannot be found |
| `SettingsHistory.OthersTell` | src/api/settings.ts:214-247 | calls queue, a new generation forgets the applied pair and nothing else, a timeout aborts the request in flight, and without one no reply, failure or timeout has an effect |
| `Client.BackendClient.GetBackendPort` | src/api/client.ts:12-36 | a known port is returned at once; otherwise the shell is asked |
| `Client.BackendClient.OnAnswer` | src/api/client.ts:12-36 | an answer with a port is cached and settles its own call only; one without puts the call among the waiters with a timer |
| `Client.BackendClient.OnTimeout` | src/api/client.ts:12-36 | a timeout takes its resolver out and rejects the call |
| `Client.StrandsIff` | src/api/client.ts:12-36 | a step leaves a call waiting although the port is known exactly when an answer without a port comes after the port was learned, or an answer with one while others wait |
| `Client.AnnouncedInBetween` | src/api/client.ts:12-36 | an announcement between a question and its empty answer makes the call time out with the port known |
| `Client.BackendClient.OnReady` | src/api/client.ts:46-57 | the announcement sets the port, settles every waiter in order and stops its timer |
| `Client.SettlesOnce` | src/api/client.ts:4-57 | over every run each call is settled exactly once or is still asking or waiting |
| `Client.WaiterHears` | src/api/client.ts:4-57 | a waiting call gets the port of the first announcement after it began to wait, unless its own timeout comes first |
| `Client.CallSettles` | src/api/client.ts:12-57 | every call, whatever comes before and after it: a known port is its outcome at once; otherwise its own answer, or if that tells none the next announcement or its timeout |
| `Client.KnownPortStays` | src/api/client.ts:13-20 | once known, the port changes only to one that an announcement told, or an answer to a question asked before it was known |
| `Client.PortReplacedIff` | src/api/client.ts:13-20 | a step replaces a known port exactly when it tells another one in this way |
| `Client.OlderAnswerWins` | src/api/client.ts:13-20 | such an older answer replaces an announced port |
| `BackendPort.PostsIff` | src/api/settings.ts:241-269 | a step posts exactly when the write at the head begins with a known port, or its own answer or the announcement it waits for tells one, and it is not skipped |
| `BackendPort.WrongPortIff` | src/api/settings.ts:241-269 | in any state the write that a step posts misses the announced port exactly when, before the step, another port is cached and the lookup uses it, or the answer it waited for tells another |
| `BackendPort.MissedIff` | src/api/settings.ts:241-269 | whatever came before an announcement: until the next one, some write of its generation has gone to another port exactly when some step since posted one in this way |
| `BackendPort.AcknowledgedPort` | src/api/settings.ts:241-269 | whatever came before an announcement: until the next one, as long as no answer tells another port, every acknowledged write of the generation, and so the applied settings, has the url of the announced port |
| `BackendPort.OlderPortArises` | src/api/settings.ts:241-269 | an older answer after the announcement sends a write to the older port |
| `VideoJob.VideoJobState.ReadNext` | sidecar/app.py:213-247 | one turn of the stream: a progress event, or at the sentinel the one last event that the holders decide |
| `VideoJob.VideoJobState.OnProgress` | sidecar/app.py:186-189 | a callback queues its fraction, or raises when the flag is set |
| `VideoJob.VideoJobState.CheckCancellation` | sidecar/app.py:198-209 | the worker looks at the flag before it generates |
| `VideoJob.VideoJobState.OnGenerated` | sidecar/app.py:198-209 | the generation leaves its bytes or its error |
| `VideoJob.VideoJobState.PopJob` | sidecar/app.py:198-209 | the job leaves the registry |
| `VideoJob.VideoJobState.PutSentinel` | sidecar/app.py:198-209 | then the sentinel is queued |
| `VideoJob.DeregisteredFirst` | sidecar/app.py:198-209 | whenever the sentinel is in the queue or read, the job has left the registry |
| `VideoJob.VideoJobState.FindToCancel` | sidecar/app.py:136-143 | the lookup under the lock, and what it answers |
| `VideoJob.FlagIff` | sidecar/app.py:136-143 | the flag is set exactly when a canceller that found the job while it was registered has gone on to set it |
| `VideoJob.VideoJobState.SetCancellation` | sidecar/app.py:136-143 | the flag is set after the lock is released |
| `VideoJob.FoundIsNotCancelled` | sidecar/app.py:136-143 | an answered cancellation need not cancel: a run in which it comes too late ends in done |
| `VideoJob.StreamShape` | sidecar/app.py:213-247 | over every interleaving a fully read stream is started, the progress of every accepted callback in order, and exactly one of done, error or cancelled; a stream not fully read is a prefix of that |
| `VideoJob.NoStarvation` | sidecar/app.py:213-247 | the reader never waits for a worker that is gone |
| `VideoJob.CancellationHolds` | sidecar/app.py:186-205 | a cancellation set before some later look at the flag never ends in done |
| `VideoJob.CancelledIff` | sidecar/app.py:198-238 | a fully read stream ends in cancelled exactly when at some step the worker looked at the flag, before it generated or in a progress callback, and found it set, or the backend raised that very message |
| `VideoJob.OutcomeIff` | sidecar/app.py:186-247 | a fully read stream ends in done with exactly the bytes that the backend returned, and in an error with exactly the message it raised, other than the cancellation |
| `VideoJob.ProgressTells` | sidecar/app.py:186-247 | its progress is that of every callback made while generating with the flag unset, in order |
| `Pipeline.PipelineDispatcher.Generate` | sidecar/pipeline.py:45-54 | one call under the lock, for a backend whose load and generation work or raise |
| `Pipeline.GenerateLeaves` | sidecar/pipeline.py:45-54 | a successful call leaves exactly its backend resident; an unknown id changes nothing; a failed load leaves nothing resident and the note as it was |
| `Pipeline.WorkingBackendFailsIff` | sidecar/pipeline.py:45-54 | a working backend fails to generate exactly when the note is stale and names it |
| `Pipeline.StaleStays` | sidecar/pipeline.py:45-54 | which lasts while only that backend is asked for |
| `Pipeline.BecomesStaleIff` | sidecar/pipeline.py:45-54 | after a step of any run it is stale exactly when that was the failed load of another backend, or it was stale and the call was for an unknown backend or its own |
| `Pipeline.StaleArises` | sidecar/pipeline.py:45-54 | a concrete run with such a failed load |
| `Pipeline.PipelineDispatcher.Unload` | sidecar/pipeline.py:56-60 | the noted backend is unloaded and the note cleared |
| `Pipeline.GenerateTells` | sidecar/pipeline.py:45-60 | every outcome of a call after any run and what it leaves noted and resident |
| `Pipeline.UnloadLeaves` | sidecar/pipeline.py:45-60 | after an unload nothing is noted or resident |
| `Pipeline.AtMostOneResident` | sidecar/pipeline.py:45-60 | over all runs, failing loads and generations included, at most one backend is resident |
| `Pipeline.RunIsExclusive` | sidecar/pipeline.py:45-60 | and a resident backend is the one that loaded names |
| `Cdp.CdpClient.Send` | scripts/lib/cdp.ts:153-184 | a closed or unopened socket refuses at once without an id; otherwise the next id is pending with a timer, and withdrawn again when the socket raises |
| `Cdp.CdpClient.OnMessage` | scripts/lib/cdp.ts:91-128 | a malformed message rejects all that is pending, an answer settles the request with its id, an unknown id and a notice change nothing |
| `Cdp.CdpClient.OnTimeout` | scripts/lib/cdp.ts:164-167 | a timer that fires withdraws and rejects its request |
| `Cdp.CdpClient.OnClose` | scripts/lib/cdp.ts:130-136 | a closed socket rejects what is pending and stays closed |
| `Cdp.CdpClient.OnError` | scripts/lib/cdp.ts:130-136 | a transport error rejects what is pending |
| `Cdp.CdpClient.RejectAllPending` | scripts/lib/cdp.ts:190-196 | every pending request is rejected once, in the order they were made, and its timer cleared |
| `Cdp.EachCallSettles` | scripts/lib/cdp.ts:91-196 | over every run all attempts to settle one call of send are at most one: by the first later step that answers its id, times it out or brings the socket down; it is pending exactly until then |
| `Cdp.StepVerdict` | scripts/lib/cdp.ts:91-196 | a step settles a call exactly when its request is pending and the step says something about it, and leaves all others as they are |
| `Cdp.RepliedCall` | scripts/lib/cdp.ts:106-115 | a call whose first later step about it is a reply with its id has one settlement: the result of a reply without an error, else the failure of its own command with that error |
| `Cdp.TimersArePending` | scripts/lib/cdp.ts:164-195 | in every reachable state the running timers are those of the pending requests |
| `Cdp.ClosedForGood` | scripts/lib/cdp.ts:130-160 | after a close nothing is ever pending again and no id is given out |
| `CdpObservers.Observers.Subscribe` | scripts/lib/cdp.ts:143-146 | the handler joins the group that the table holds for the name, or a new one |
| `CdpObservers.SubscribeAdds` | scripts/lib/cdp.ts:143-146 | a subscription adds its handler once to its name and changes no other |
| `CdpObservers.Observers.Unsubscribe` | scripts/lib/cdp.ts:147-150 | the handler leaves the group it was added to; an empty group takes the name out of the table |
| `CdpObservers.UnsubscribeIff` | scripts/lib/cdp.ts:147-150 | after every run, tidy or not, an unsubscriber takes away just its handler, or nothing once its group is gone, unless that group is empty without it and the name has a newer group: exactly then it silences the name |
| `CdpObservers.CancellingTwiceSilences` | scripts/lib/cdp.ts:147-150 | cancelling twice silences whoever has subscribed in between |
| `CdpObservers.Observers.Notify` | scripts/lib/cdp.ts:119-126 | a notice calls each observer of its name once, in order; what one raises is swallowed and keeps none from being called |
| `CdpObservers.EachOnce` | scripts/lib/cdp.ts:119-150 | over every run a handler is at most once among the observers of a name |
| `CdpObservers.TidyIsHeard` | scripts/lib/cdp.ts:119-151 | when no handler is added twice and nothing is cancelled twice, a notice is heard by exactly the handlers subscribed and not cancelled |
| `CampaignCommits.CampaignFixture.CreateCampaign` | e2e/fixtures/campaign-state.ts:108-133 | a creation: refused when it differs from the campaign of its id, made once, its reply lost once if so configured |
| `CampaignCommits.CreationIsIdempotent` | e2e/fixtures/campaign-state.ts:108-133 | over every run one request id creates one campaign: the same request again, after a lost reply too, makes no other, and one with other content is refused |
| `CampaignCommits.CampaignFixture.PutCharacter` | e2e/fixtures/campaign-state.ts:138-178 | a commit: unknown campaign, one rejection if so configured, receipt, stale session or revision, applied, in this order |
| `CampaignCommits.AppliedIff` | e2e/fixtures/campaign-state.ts:160-176 | a commit is applied exactly when it has no receipt and the current session and revision; otherwise no campaign and no receipt changes |
| `CampaignCommits.NoLostUpdate` | e2e/fixtures/campaign-state.ts:160-176 | of two commits made against one revision at most one is ever applied |
| `CampaignCommits.ReplaysAreAnswered` | e2e/fixtures/campaign-state.ts:149-176 | exactly once under lost acknowledgements: after a commit is applied, its identical replay is always answered with the stored receipt, a changed one is a conflict, and neither changes anything |
| `CampaignCommits.RevisionCountsCommits` | e2e/fixtures/campaign-state.ts:167-170 | over every run the revision is the first one plus the number of committed causations, which are distinct and made distinct revisions |
| `CampaignCommits.RequestKeeps` | e2e/fixtures/campaign-state.ts:108-176 | every request keeps receipts and campaigns consistent and never undoes a receipt, a revision or what a campaign was created as |
| `CampaignCommits.KeysClashIff` | e2e/fixtures/campaign-state.ts:150-158 | two campaigns can have receipts of one key exactly when one id continues the other after a colon |
| `CampaignCommits.NewCommitRefusedIff` | e2e/fixtures/campaign-state.ts:150-158 | a commit new to its campaign, with the right session and revision, is refused exactly when the receipt of another campaign has its key |
| `CampaignCommits.ShutOutArises` | e2e/fixtures/campaign-state.ts:150-158 | which two campaigns with such ids bring about |
| `CampaignCommits.OwnReceiptsOnly` | e2e/fixtures/campaign-state.ts:150-158 | and which cannot be when no id continues another after a colon |
| `CampaignReplies.CreateTells` | e2e/fixtures/campaign-state.ts:108-133 | every answer to a creation after any run; the first creation of a run that is not refused loses its reply exactly if so configured |
| `CampaignReplies.CommitTells` | e2e/fixtures/campaign-state.ts:138-178 | every answer to a commit after any run; the first to an existing campaign is refused, and the first applied one loses its reply, exactly if so configured |
| `RasterHeader.RasterHeader` | scripts/lib/raster-header.ts:4-25 | the header of any bytes: the PNG walk for a PNG signature and at least 33 bytes, the WebP walk otherwise |
| `RasterHeader.PngRoundTrip` | scripts/lib/raster-header.ts:4-25 | a printed PNG is read as its dimensions, and alpha exactly when the colour type is 4 or 6 or some chunk is tRNS |
| `RasterHeader.WebpRoundTrip` | scripts/lib/raster-header.ts:4-25 | a printed WebP file is read as the header of its chunk with dimensions, whatever plain chunks come before and whatever comes after |
| `RasterHeader.ReadsIff` | scripts/lib/raster-header.ts:4-25 | exactly the printed PNGs with a short tail, and the WebP files whose body is printed plain chunks, then a chunk that gives dimensions, then anything, are read |
| `Png.PngHeader` | scripts/lib/raster-header.ts:5-14 | the chunk loop, on any bytes, computes the walk from the first chunk, or rejects |
| `Png.AcceptsIff` | scripts/lib/raster-header.ts:5-14 | it accepts exactly the printed chunk lists (RFC 2083 section 3.2), with up to eleven bytes after them: it rejects exactly when a chunk overruns the buffer |
| `Png.PrintedHeader` | scripts/lib/raster-header.ts:5-14 | from a printed list that starts with IHDR come its dimensions (section 4.1.1), and alpha exactly when the colour type is 4 or 6 or some chunk anywhere is tRNS (section 4.2.9) |
| `Png.AsciiKinds` | scripts/lib/raster-header.ts:10-10 | decoding chunk types as ASCII drops the highest bit, which changes nothing for types made of letters |
| `Webp.WebpHeader` | scripts/lib/raster-header.ts:15-24 | the chunk loop, on any bytes, computes the walk, or rejects; it never reads beyond the buffer |
| `Webp.FindsIff` | scripts/lib/raster-header.ts:15-24 | it finds a header exactly where a chunk that gives it follows chunks that give none, printed with their padding (RFC 9649 section 2.3) |
| `Webp.OverrunsIff` | scripts/lib/raster-header.ts:15-24 | it is out of bounds exactly where a chunk that overruns the buffer follows such chunks |
| `Webp.FileHeader` | scripts/lib/raster-header.ts:15-24 | from a printed file with any plain chunks of any lengths before it, and anything after it, comes the header of its chunk with dimensions |
| `Webp.ReadDimensions` | scripts/lib/raster-header.ts:19-21 | the three tests of one chunk |
| `Webp.Extended` | scripts/lib/raster-header.ts:19-19 | the VP8X canvas size and alpha flag (RFC 9649 section 2.7) are read back |
| `Webp.Lossless` | scripts/lib/raster-header.ts:20-20 | so are the fourteen-bit sizes and the alpha bit of VP8L |
| `Webp.Lossy` | scripts/lib/raster-header.ts:21-21 | and the sizes of VP8 without their scales (RFC 6386 section 9.1) |
| `Webp.DimensionsIff` | scripts/lib/raster-header.ts:19-21 | a chunk gives a header exactly when its name is one of the three and its data are laid out as that format does |
| `Webp.FileIff` | scripts/lib/raster-header.ts:16-16 | a file is taken for a WebP exactly when its two names, less the highest bits, and its size field say so |
| `RasterHeader.NamesSpelled` | scripts/lib/raster-header.ts:5-21 | the signature and the chunk names, spelled out |
| `Escaping.EscapedIsRendered` | src/components/MessageBubble.tsx:169-173 | the four replacements in turn are one replacement of each character by its entity |
| `EscapedText.EscapeRoundTrip` | src/components/MessageBubble.tsx:169-173 | which reading the entities undoes |
| `Spans.CloseIndexIff` | src/components/MessageBubble.tsx:174-180 | a lazy span closes at the first closing delimiter, with no line terminator before it |
| `Spans.SpanIff` | src/components/MessageBubble.tsx:174-180 | a span is found exactly where the delimiter starts before content without a line terminator up to the next delimiter after its first element |
| `Spans.SpanIs` | src/components/MessageBubble.tsx:174-180 | a span is delimiter, content, delimiter and rest, the content not empty |
| `Escaping.WrapRefines` | src/components/MessageBubble.tsx:174-180 | a pass over the HTML, with its entities and earlier tags, is the same pass over characters and tags as units: it never cuts through either |
| `EscapedText.HtmlIsMarked` | src/components/MessageBubble.tsx:174-180 | so the HTML of a line is the rendering of three passes over its characters |
| `SimpleSpans.OneSpan` | src/components/MessageBubble.tsx:169-180 | text without marks between two asterisks or underscores becomes strong, between one emphasis, between backticks code, and alone stays as it is |
| `SimpleSpans.NoneOverLines` | src/components/MessageBubble.tsx:169-180 | a span does not reach over any of the four line terminators |
| `SimpleSpans.Entities` | src/components/MessageBubble.tsx:169-180 | the four entities written out; a text is escaped piece by piece |
| `EscapedText.TextIsKept` | src/components/MessageBubble.tsx:168-181 | stripping the tags and decoding the entities gives the line with only asterisks, underscores and backticks deleted |
| `EscapedText.AnglesAreTags` | src/components/MessageBubble.tsx:168-181 | every < of the HTML starts one of the six inserted tags |
| `EscapedText.TagsPair` | src/components/MessageBubble.tsx:168-181 | the tags of each kind alternate, opening and closing |
| `TagNesting.NestsIff` | src/components/MessageBubble.tsx:168-181 | the tags of a line nest exactly when every span of emphasis, and every span of code, encloses of the tags inserted before it both or neither of a pair |
| `TagNesting.WrapNests` | src/components/MessageBubble.tsx:168-181 | a pass keeps the nesting if its spans enclose pairs, and breaks it otherwise |
| `TagNesting.TagsCross` | src/components/MessageBubble.tsx:168-181 | in **a*b**c* strong and emphasis cross |
| `EscapedText.ReadRender` | src/components/MessageBubble.tsx:168-181 | reading the HTML returns the characters and tags it was rendered from |
| `Evidence.Evaluate` | scripts/lib/tauri-campaign.ts:261-365 | the loop returns the verdict told by the first item that is not good |
| `Evidence.AcceptsIff` | scripts/lib/tauri-campaign.ts:261-365 | it accepts exactly the lists of all required checkpoints in order with every item valid |
| `Evidence.VerdictTells` | scripts/lib/tauri-campaign.ts:261-365 | the verdict on any list, from the first position that is missing, misnamed or does not say what that position must, each position written out |
| `Evidence.AcceptedHangsTogether` | scripts/lib/tauri-campaign.ts:261-365 | an accepted list has safe ids, two different assets, the save restored that was created and revisions started = move < advanced < acted < turn < ended |
| `Evidence.RejectionStays` | scripts/lib/tauri-campaign.ts:261-365 | a rejection by order or validity is unchanged by any extension |
| `Evidence.BeginsAcceptedIff` | scripts/lib/tauri-campaign.ts:261-365 | a list begins an accepted one exactly when it is not rejected by order or validity |
| `Evidence.CompletedIsPrefix` | scripts/lib/tauri-campaign.ts:261-365 | what is reported as completed is a prefix of the required list |
| `Evidence.Check` | scripts/lib/tauri-campaign.ts:281-350 | the test of one item, with the four values remembered, is what the items before it demand |

## Left out

- Bytes to characters: the streams are text already; what the character decoder still holds at the end is
  a parameter. Lengths count characters, not UTF-16 units.
- JSON: the data of an event stays text, and schemas and `decodeAgentEvent` are arbitrary partial
  functions of it.
- HTTP status handling, request building, log lines and reader release around the four stream readers.
- The result of a handler called on the flushed rest in the character-assist reader is ignored there, and
  so here.
- Event ids, retry times and reconnection of the WHATWG standard, which the parser does not keep.
- Settings: how a request body is made from the settings (`toV2Wire`), and that making it can throw before
  an operation is queued; the url of an operation is whatever the port lookup gave it.
- Port: the set of ready-observers; in `BackendPort` the one that matters is part of an announcement. Only
  writes of settings and bare lookups ask for the port there.
- Video: several video jobs at once (they share one progress callback), the estimates in progress events
  and the encoding of the bytes; the request checks before the stream.
- A backend that swallows what its progress callback raises.
- Dispatcher: a load that raises is taken to leave nothing resident, and an unload not to raise.
- CDP: opening the connection, serialisation, and handlers that subscribe or cancel while a notice is being
  delivered; a message that is JSON null.
- Campaigns: the projection beyond the character sheet, the list of campaigns, and the order of keys in a
  commit's JSON (a commit is its fields); ids that the server draws are arbitrary.
- Headers: nothing beyond the header facts is decoded; chunk checksums are not checked, as in the source.
- Escaping: headings, paragraphs and the sanitiser around a line.
- Evidence: the further reader of captured agent events, which would repeat the event-stream results; an
  identifier is text, and a number whole or not.
- Termination of reads, timers and native calls: they are steps that may never come.
- `Room.RoomStream.OnAbort`: does not model the request to the native side to cancel, which changes nothing here.
- `VideoJob.VideoJobState.ReadNext`: does not model the rounding of fractions in progress events, because it is presentation.
- `Cdp.CdpClient.Send`: does not model the length of the timeout; a timer may fire at any time.
