# A verified model of the `banshu-ai` streaming core

`banshu-ai` streams chat completions. Between the HTTP layer and the caller sit several
state machines: a server-sent-event decoder, a parser for JSON that is still arriving, an
assembler that turns protocol events into a message, a driver that gives every stream its
terminal guarantee, a public stream that rebuilds the message from its own events, two wire
adapters, a history normalizer, a single-flight token refresh, a retry executor and a layered
model list. This project models each of them in Dafny and proves what the repository promises
of them, for every input, every run and every reachable state.

`dafny verify dfyconfig.toml` checks the whole project.

## How it is built

Code that changes state is modelled as it is written: classes with the source's fields
(`SseDecoder`, `Parser`, `MessageAssembler`, `MessageStream`, `OAuthSession`,
`InMemoryCredentialStore`, `Provider`, `Context`) and methods with the source's loops. Each
method's contract equates its result and new state with a function of the old state, and the
theorems are about those functions.

| component | files |
|---|---|
| server-sent events | `SseSpec` (the one-pass meaning), `Sse` (the decoder), `SseTheorems`, `SseRecovery` |
| JSON that is still arriving | `JsonNumbers`, `JsonText` (RFC 8259 as derivations), `JsonLexing`, `PartialJson` (tolerant and strict parsers as functions), `PartialJsonParser` (the cursor-based parser), `JsonPlaces`, `JsonReading`, `JsonStrict`, `JsonCuts`, `JsonPrefix`, `JsonArrivals`, `JsonOrder`, `JsonSnapshots`, `JsonConverse` |
| assembler, driver, public stream | `Messages`, `Assembler`, `AssemblerTheorems`, `MessageStreams`, `Driver`, `Projection`, `Traces`, `StopReasons` |
| wire adapters | `Adapters`, `ProtocolRuns`, `OpenAiAdapter`, `OpenAiTheorems`, `CleanEof`, `AnthropicAdapter`, `AnthropicTheorems`, `AnthropicWire` |
| history normalization | `ToolCallIds`, `Normalize`, `NormalizeTheorems`, `Replays` |
| token refresh | `Credentials`, `OAuthProtocol`, `OAuthSessions` |
| executor | `Http`, `Executor`, `ExecutorTheorems` |
| model list | `Overlay`, `OverlayTheorems` |
| network to caller | `EndToEnd` |

What the outside world answers is a parameter. Lossy UTF-8 decoding is a function from a line's
bytes to a line's bytes; the outcome of each send, each random number, each token exchange and
each store operation is data the run is given; how a payload's JSON reads is a function.

## What was found

Each of these holds of the code only under a condition, which a theorem gives exactly, for every
input; where the condition can fail, a witness shows how.

- History repair. Its documentation says that replay always forms a legal request (normalize.rs:33).
  It does for every history as a tool loop records it, with fresh ids, whichever turns failed and
  whichever results are missing (`Replays.RecordedIsRepaired`); in general exactly when the surviving
  messages form one without the calls nothing answers (`RepairedIsLegalExactly`). Two ways to fail: a
  result that answers a live call is dropped where a failed turn issued a call under the same id
  (`NormalizeTheorems.SharedIdLosesTheResult`), and one result is taken for two turns that reuse an id
  (`Replays.ReusedIdIsNotRepaired`). `IdempotentExactly` says when normalizing twice is normalizing
  once.
- `CleanEof.NoBreakSpaceFails`: completion inferred from a clean end of the stream trims arguments
  with Unicode's whitespace, which is wider than JSON's; arguments padded with, for instance, a
  no-break space are approved and then fail the end of their call. `InferredCompletion` says exactly
  when.
- A server-sent-event decoder that has refused a line can go on to return events exactly when the
  line was not its event's first data line (`SseRecovery.FirstFailureRecovers`); after an oversized
  first line nothing more is ever returned (`OversizedFirstLine`).
- Snapshots of a text without repeated names improve throughout exactly when its top value is an
  object and no string value holds a surrogate pair (`JsonConverse.SnapshotsImproveExactly`); a
  repeated name can undo what was shown (`RepeatedNamesDoNotImprove`).
- A restored model list is the one that was stored exactly when, under every id, the last listed
  model stamped with the provider is the first one listed (`OverlayTheorems.RestoreKeepsModels`);
  distinct caller ids are enough, and `RepeatedOwnIdIsNotRestored` is a family that fails.
- The raw reason of a finished message is its own stop's exactly when the last stop gives one or no
  stop before it did (`StopReasons.DoneCarriesLastRaw`); both wire adapters stop at most once, so
  theirs always is.

## Model

| member | source | states |
|---|---|---|
| `Sse.SseDecoder.Push` | crates/ai/src/sse.rs:78-125 | one chunk: the new buffer, flag, assembly and deferred error, and the events or the error, are those of `Pushed` on the old ones |
| `Sse.SseDecoder.Finish` | crates/ai/src/sse.rs:129-147 | the end of the body: a deferred error comes first, else the unterminated line and the open event are flushed |
| `Sse.SseDecoder.ProcessLineInPlace` | crates/ai/src/sse.rs:152-179 | one line changes the assembly as the standard's field rules say, and fails exactly where the count passes the cap |
| `SseTheorems.ChunkIndependence` | crates/ai/src/sse.rs:78-147 | for every list of chunks, empty ones and cuts inside CRLF included, the events up to the first failing call, and whether a call fails, are those of the one-pass decoding of the concatenation |
| `SseTheorems.PendingLineHasNoDelimiter` | crates/ai/src/sse.rs:82-123 | between error-free calls the buffer holds no CR or LF, and a pending CR leaves it empty |
| `SseTheorems.EarlyEventsAreFinal` | crates/ai/src/sse.rs:78-125 | events already returned are a prefix of the one-pass decoding of any continuation |
| `SseTheorems.LineEndingIndependence` | crates/ai/src/sse.rs:98-113 | rewriting a body's line endings with any mixture of LF, CRLF and CR changes neither the events nor the failure |
| `SseTheorems.EventRoundTrip` | crates/ai/src/sse.rs:152-194 | writing an event as field lines and decoding them gives the event back |
| `SseTheorems.StepAccounting` | crates/ai/src/sse.rs:165-174 | a line is refused exactly when it is a data line and the joined data with it would exceed 8 MiB |
| `SseTheorems.CountIsExact` | crates/ai/src/sse.rs:165-194 | in every error-free state the running count is the length of the data lines joined with LF |
| `SseTheorems.NoOversizedEvent` | crates/ai/src/sse.rs:152-194 | however long the decoder is used, after errors too, no event it returns exceeds the cap |
| `SseRecovery.RefusedLinePoisons` | crates/ai/src/sse.rs:165-174 | a refused line leaves a decoder with no data line and a count past the cap exactly when it was the first data line of its event |
| `SseRecovery.PoisonIsPermanent` | crates/ai/src/sse.rs:78-194 | from such a state on no call, `finish` included, returns an event, whatever comes |
| `SseRecovery.RecoversExactly` | crates/ai/src/sse.rs:78-194 | after a line was refused some continuation brings an event if and only if the line was not the first data line of its event |
| `SseRecovery.FirstFailureRecovers` | crates/ai/src/sse.rs:78-194 | for every decoder the call that first fails has refused one line of all that was fed, and can be followed by an event if and only if the event of that line had a data line before it |
| `SseRecovery.OversizedFirstLine` | crates/ai/src/sse.rs:78-125 | an oversized first line pushed into a new decoder: the next call reports it, and no later call returns an event |
| `PartialJsonParser.Parser.Value` | crates/ai/src/partial_json.rs:102-121 | the cursor parser's outcome and final position are those of the function `ValueAt` |
| `PartialJsonParser.Parser.ObjectBody` | crates/ai/src/partial_json.rs:125-171 | the same for an object after its brace; its unreachable arm is proved dead |
| `PartialJsonParser.Parser.ArrayBody` | crates/ai/src/partial_json.rs:175-204 | the same for an array |
| `PartialJsonParser.Parser.QuotedString` | crates/ai/src/partial_json.rs:210-241 | the same for a string |
| `PartialJsonParser.Parser.Unicode` | crates/ai/src/partial_json.rs:245-265 | the same for a `\u` escape, with the backtrack over a failed low surrogate; it terminates |
| `PartialJsonParser.Parser.NumberToken` | crates/ai/src/partial_json.rs:280-302 | the same for a number: the token, or its longest valid stripping where the input ends |
| `PartialJsonParser.ParseArguments` | crates/ai/src/partial_json.rs:33-59 | the entry point returns `Parse`: strict, then empty, then repaired |
| `JsonNumbers.NumberGrammar` | crates/ai/src/partial_json.rs:280-302 | the number test accepts exactly the tokens section 6 of RFC 8259 derives |
| `JsonStrict.StrictIsTheGrammar` | crates/ai/src/partial_json.rs:33-36 | the strict parser accepts exactly the texts RFC 8259 derives with paired surrogates, each with its meaning |
| `JsonPrefix.NoPrefixIsInvalid` | crates/ai/src/partial_json.rs:33-59 | no prefix of any JSON text is reported invalid, wherever the cut falls |
| `JsonPrefix.BestOfPrefix` | crates/ai/src/partial_json.rs:292-301 | stripping what a truncated number ends in leaves a valid number that is a prefix of it, or nothing |
| `JsonPrefix.TolerantExtendsStrict` | crates/ai/src/partial_json.rs:102-315 | on every strictly valid text the tolerant parser alone returns the strict value and leaves only whitespace |
| `JsonPrefix.CompleteIsStrict` | crates/ai/src/partial_json.rs:33-36 | what a caller of the entry point learns from `Complete`: a text is reported complete with a value exactly when a derivation of it means that value |
| `JsonSnapshots.SnapshotsImprove` | crates/ai/src/partial_json.rs:125-171 | for prefixes p of q of an object's text, without repeated names or surrogate pairs, the snapshot of p is below that of q |
| `JsonOrder.BelowTransitive` | crates/ai/src/partial_json.rs:1-11 | the order on snapshots is transitive |
| `JsonOrder.BelowAntisymmetric` | crates/ai/src/partial_json.rs:1-11 | the order on snapshots is antisymmetric |
| `JsonConverse.SnapshotsImproveExactly` | crates/ai/src/partial_json.rs:33-265 | for every text without repeated names, all pairs of prefixes improve if and only if the top value is an object and no string value anywhere holds a surrogate pair |
| `JsonConverse.RepeatedNameReplaces` | crates/ai/src/partial_json.rs:125-171 | where a name is repeated, a prefix shows its first value and the whole text its second |
| `JsonConverse.RepeatedNamesDoNotImprove` | crates/ai/src/partial_json.rs:125-171 | `{"a":[],"a":0}` has a prefix whose snapshot the whole text does not improve on |
| `Assembler.MessageAssembler.Apply` | crates/ai/src/api/assembler.rs:104-363 | one protocol event: the message, block map, stop flag and public event are those of `Step` |
| `Assembler.MessageAssembler.Fail` | crates/ai/src/api/assembler.rs:66-78 | a failure's message: diagnostics appended, reason Error, kind and text set, raw reason cleared |
| `Assembler.MessageAssembler.Abort` | crates/ai/src/api/assembler.rs:87-95 | an abort's message, with no error kind, and no content after it |
| `AssemblerTheorems.ReachableIsSound` | crates/ai/src/api/assembler.rs:104-407 | after any events the block map is a bijection onto the content indices with matching kinds, and each block holds exactly the concatenation of its emitted deltas |
| `AssemblerTheorems.EndsCarryDeltas` | crates/ai/src/api/assembler.rs:260-305 | an end event carries that concatenation, and for a tool call the parse of it |
| `AssemblerTheorems.EndFailsExactly` | crates/ai/src/api/assembler.rs:260-305 | the end of an open tool call fails exactly when the concatenated arguments are unrepairable |
| `MessageStreams.MessageStream.Record` | crates/ai/src/stream.rs:211-311 | one public event changes the rebuilt message as `Recorded` says and sets the terminal message exactly on `Done` or `Error` |
| `MessageStreams.MessageStream.PollNext` | crates/ai/src/stream.rs:314-325 | polling returns the next event and records it |
| `MessageStreams.MessageStream.Finish` | crates/ai/src/stream.rs:193-202 | finishing records remaining events up to the first terminal one and no further, and returns its message |
| `Projection.StreamRefinesAssembler` | crates/ai/src/stream.rs:211-311 | after every public event of every driven stream the rebuilt content is the assembler's, with only the signature and redaction of unended text and thinking blocks blanked; tool calls, raw arguments and snapshot included, are equal; after the terminal event the messages are equal |
| `Driver.Drive` | crates/ai/src/api/mod.rs:218-419 | the driver yields `Start`, then what preflight, authentication and the event loop give |
| `Driver.TakeTurn` | crates/ai/src/api/mod.rs:373-403 | one turn of the event loop: cancellation aborts, a pending stop fails, anything else is applied |
| `Traces.EveryStreamIsGrammatical` | crates/ai/src/api/mod.rs:253-416 | for every adapter, cancellation point and preflight failure the trace is one `Start`, then retries and block events with indices 0, 1, 2, ..., then exactly one terminal event that agrees with its message |
| `Traces.EveryBlockHasShape` | crates/ai/src/api/mod.rs:253-416 | in every such trace each block's events are of one kind and have the shape Start Delta* End? |
| `Traces.EveryEndCarriesItsDeltas` | crates/ai/src/api/assembler.rs:260-305 | in every driven stream an end event carries the concatenation of the deltas the caller saw |
| `StopReasons.DoneCarriesLastRaw` | crates/ai/src/api/mod.rs:373-415 | a driven run that ends in `Done` reports the last stop, and the raw reason of the last stop that gave one: that of the reported stop if and only if it gave one or none before it did |
| `StopReasons.OpenAiReportsItsStop` | crates/ai/src/api/openai_completions.rs:305-367 | a message of the OpenAI adapter that ends in `Done` always has the raw reason of its own stop |
| `StopReasons.AnthropicReportsItsStop` | crates/ai/src/api/anthropic_messages.rs:249-298 | the same for the Anthropic adapter |
| `ProtocolRuns.CountsMatch` | crates/ai/src/api/assembler.rs:369-407 | in an accepted run a block is started once, when it enters the map, and ended once, when it is marked, as one kind |
| `ProtocolRuns.DoneMeansAccepted` | crates/ai/src/api/mod.rs:373-415 | a run ends in `Done` only if the assembler accepted every adapter event |
| `OpenAiAdapter.Stream` | crates/ai/src/api/openai_completions.rs:121-368 | the chunk loop and the finish yield exactly `Streamed` |
| `OpenAiAdapter.OneTool` | crates/ai/src/api/openai_completions.rs:254-304 | one tool-call delta: slots resized, the accumulator updated, the start and the fragment yielded; an accumulator with a fragment has started |
| `OpenAiTheorems.StreamIsOrderly` | crates/ai/src/api/openai_completions.rs:121-368 | for every chunk sequence nothing yielded breaks the order of blocks; the assembler accepts all of it exactly when the response completed and every started tool call's accumulated arguments are repairable; accepted streams leave no block open |
| `OpenAiTheorems.ReceiveAgrees` | crates/ai/src/api/openai_completions.rs:121-311 | while reading, slots and assembler blocks correspond one to one and each accumulator's arguments are the text the assembler holds for its block |
| `OpenAiTheorems.DoneEndsEveryBlock` | crates/ai/src/api/openai_completions.rs:346-367 | a run that ends in `Done` has started every block once and ended it once, as one kind |
| `OpenAiTheorems.StopIsTheWires` | crates/ai/src/api/openai_completions.rs:305-367 | a completed response stops last, with the wire's reason and its mapping, or with the inferred one |
| `CleanEof.CompleteArgumentsEnd` | crates/ai/src/api/openai_completions.rs:428-437 | approved arguments can end their call exactly when they trim to nothing or only JSON whitespace surrounds them |
| `CleanEof.InferredCompletion` | crates/ai/src/api/openai_completions.rs:313-344 | where completion is inferred, the stream is accepted exactly when that holds of every started call |
| `CleanEof.NoBreakSpaceFails` | crates/ai/src/api/openai_completions.rs:428-437 | a concrete text that is approved and cannot end its call |
| `AnthropicAdapter.Stream` | crates/ai/src/api/anthropic_messages.rs:115-299 | the wire loop and the finish yield exactly `Streamed` |
| `AnthropicAdapter.CloseBlocks` | crates/ai/src/api/anthropic_messages.rs:282-292 | the end loop yields one end for each open slot, ascending, and marks it |
| `AnthropicWire.ReceiveFits` | crates/ai/src/api/anthropic_messages.rs:176-255 | what is read is accepted exactly when no start reuses an index, every fragment's index is open and of its kind, and every call ended by its own stop has repairable arguments; slots and blocks then agree, and the assembler holds exactly the fragments received |
| `AnthropicWire.AcceptedExactly` | crates/ai/src/api/anthropic_messages.rs:176-298 | the assembler accepts a whole stream exactly when that holds up to `message_stop`, which came, and the calls left open have repairable arguments too |
| `AnthropicTheorems.DoneEndsEveryBlock` | crates/ai/src/api/anthropic_messages.rs:115-298 | for every wire sequence, with missing, repeated or out-of-range stops, a run that ends in `Done` has started every block once and ended it once, as its kind |
| `AnthropicTheorems.StopIsTheWires` | crates/ai/src/api/anthropic_messages.rs:249-298 | a response that saw `message_stop` stops last, with the wire's reason and its mapping, after a usage whose total is the sum of its parts |
| `Normalize.Normalize` | crates/ai/src/api/normalize.rs:68-117 | the gate and the four passes over a copy give exactly `NormalizedFor` |
| `Normalize.Context.RepairToolHistory` | crates/ai/src/api/normalize.rs:127-205 | the two scans, the filter and the mending give `Repaired` |
| `Normalize.Context.NormalizeReasoning` | crates/ai/src/api/normalize.rs:212-279 | every turn is downgraded or kept by its provenance, with the counts reported |
| `Normalize.Context.NormalizeToolCallIds` | crates/ai/src/api/normalize.rs:285-314 | every call and result id is rewritten, with the count reported |
| `Normalize.Context.OmitImages` | crates/ai/src/api/normalize.rs:83-111 | user and result images become placeholders, counted apart |
| `Normalize.Context.OmitFrom` | crates/ai/src/api/normalize.rs:379-410 | a run of images, and one next to a placeholder, collapses into one |
| `ToolCallIds.RewrittenIsValid` | crates/ai/src/api/normalize.rs:324-363 | every rewritten id matches the pattern, a valid id is left alone, and rewriting twice is rewriting once |
| `NormalizeTheorems.RepairAnswersEveryCall` | crates/ai/src/api/normalize.rs:127-205 | after repair every call of a turn that is not the last has some result under its id, wherever it stands, if and only if no live call's answers were dropped with another turn's call of its id |
| `Replays.LegalMeans` | crates/ai/src/api/normalize.rs:30-35 | a request is legal exactly when it opens with no result and directly after every other message but the last stand as many results for each id as that message has calls of it |
| `Replays.RepairedIsLegalExactly` | crates/ai/src/api/normalize.rs:127-205 | a repaired history is a legal request if and only if the surviving messages are one as soon as the calls no result of the history answers are forgiven |
| `Replays.RecordedIsRepaired` | crates/ai/src/api/normalize.rs:30-205 | a history in which every result stands after the turn that made its call and no id is called twice is repaired to a legal request, whichever turns failed and whichever results are missing |
| `Replays.ReusedIdIsNotRepaired` | crates/ai/src/api/normalize.rs:128-205 | two turns under one id and one result: every call has a result somewhere, repair changes nothing, and the request is not legal |
| `NormalizeTheorems.NoSharedIdsLoseNothing` | crates/ai/src/api/normalize.rs:128-175 | with no id shared between failed and surviving turns nothing is lost |
| `NormalizeTheorems.RepairKeepsOrder` | crates/ai/src/api/normalize.rs:177-205 | each surviving message keeps its place in order, directly followed by the error results of its unanswered calls, in call order, and by nothing else |
| `NormalizeTheorems.NothingDroppedRemains` | crates/ai/src/api/normalize.rs:164-175 | no failed turn remains, and without shared ids no result for one of its calls |
| `NormalizeTheorems.NormalizedIsClean` | crates/ai/src/api/normalize.rs:68-117 | after all passes every id is valid, no failed turn, foreign reasoning or refused image is left, and where repair lost no live call every historical call has some result under its rewritten id |
| `Replays.NormalizedIsLegalExactly` | crates/ai/src/api/normalize.rs:68-117 | after all passes the request is legal for every recorded history, and where different ids are rewritten to different ones if and only if the survivors are, their unanswered calls forgiven |
| `NormalizeTheorems.NormalizeIsIdempotent` | crates/ai/src/api/normalize.rs:68-117 | without shared ids, normalizing the result again for the same model succeeds, changes nothing and reports nothing |
| `NormalizeTheorems.NormalizingAgain` | crates/ai/src/api/normalize.rs:68-117 | normalizing again always succeeds, and is without effect if and only if every historical call of the result is answered |
| `NormalizeTheorems.IdempotentExactly` | crates/ai/src/api/normalize.rs:68-117 | where different ids are rewritten to different ones, normalization is idempotent if and only if repair loses no live call |
| `NormalizeTheorems.SharedIdLosesTheResult` | crates/ai/src/api/normalize.rs:128-205 | a failed turn and its retry under one call id: the retry loses its result |
| `Credentials.MergedKeepsTokens` | crates/ai/src/credentials.rs:140-146 | a rotated credential still has a refresh token and a resource URL where the prior one had, and merging composes |
| `Credentials.InMemoryCredentialStore.Modify` | crates/ai/src/credentials.rs:264-279 | the key becomes exactly what the update returns, removed where that is nothing; a failing update changes nothing; other keys are untouched |
| `OAuthSessions.OAuthSession.JoinRefresh` | crates/ai/src/oauth.rs:337-353 | the first lock section: a caller joins the slot's operation or starts the next generation |
| `OAuthSessions.OAuthSession.ClearSlot` | crates/ai/src/oauth.rs:355-362 | the second lock section: the slot is cleared only by a caller of its generation |
| `OAuthSessions.OAuthSession.SwapCredential` | crates/ai/src/oauth.rs:403-429 | the compare-and-swap: written only over exactly what was read, and what is left stored is the result |
| `OAuthSessions.Schedule` | crates/ai/src/oauth.rs:275-430 | any interleaving of the sections on the session object leaves what the step relation says |
| `OAuthSessions.ForCaller` | crates/ai/src/oauth.rs:363-370 | a caller is told to log in again exactly when the refresh was refused as invalid |
| `OAuthProtocol.EveryRunIsSingleFlight` | crates/ai/src/oauth.rs:337-377 | in every interleaving, dropped callers included, at most one operation is uncompleted, it is the one in the slot with the largest generation, and callers of one generation get the same result |
| `OAuthProtocol.SlotLosesOnlyFinished` | crates/ai/src/oauth.rs:355-362 | only a caller that waited on the very generation in the slot clears it, once finished: a late waiter never clears a newer one |
| `OAuthProtocol.JoiningSharesTheOperation` | crates/ai/src/oauth.rs:337-353 | a caller that joins during a refresh starts no second one |
| `OAuthProtocol.NoResultOutlivesItsCallers` | crates/ai/src/oauth.rs:337-377 | in every interleaving a finished operation in the slot has a caller that has its result, is about to clear the slot and can no longer be dropped; with no such caller a newcomer waits on an operation still to be completed, never on a result already there |
| `OAuthProtocol.AbandonedRefreshIsResumed` | crates/ai/src/oauth.rs:337-377 | an operation all of whose callers left is taken up by the next one in the phase it was left in: nothing is read or exchanged twice |
| `OAuthProtocol.ResultsAreFinal` | crates/ai/src/oauth.rs:374-377 | an operation keeps its result |
| `OAuthProtocol.EveryRunIsExplained` | crates/ai/src/oauth.rs:275-430 | in every run the store's history is a chain of writes by logins, logouts, and refreshes that found exactly what they had read |
| `OAuthProtocol.RefreshNeverClobbers` | crates/ai/src/oauth.rs:379-430 | a refresh writes the merge over exactly what it read, keeps a refresh token, and returns what it wrote; only a logout deletes |
| `OAuthProtocol.SuccessIsStored` | crates/ai/src/oauth.rs:403-429 | a successful swap returns the credential left stored, a failed one leaves the store unchanged |
| `Http.CeilingIsCappedDoubling` | crates/ai/src/http.rs:217-219 | limiting the doublings changes nothing: the ceiling is 500 ms doubled per attempt, at most 8 s |
| `Http.DelayIsBounded` | crates/ai/src/http.rs:203-223 | no wait exceeds the larger of the cap and 8 s; a hint within the cap is waited exactly, one beyond it is refused |
| `Http.JitterIsFull` | crates/ai/src/http.rs:217-222 | every whole number of milliseconds up to the ceiling is a possible wait |
| `Executor.Execute` | crates/ai/src/executor.rs:72-190 | the retry loop and the decode loop yield and observe exactly `Executed` |
| `Executor.Send` | crates/ai/src/executor.rs:81-144 | one turn of the retry loop: observed, then answered, retried after its delay, or failed |
| `Executor.DecodeBody` | crates/ai/src/executor.rs:150-190 | the decode loop over the mutable decoder yields exactly `ReadBody` |
| `ExecutorTheorems.EveryRunIsGrammatical` | crates/ai/src/executor.rs:78-190 | every run is Retry^k Failed or Retry^k Established Event* (Eof or Failed), k at most `max_retries`, attempts numbered 1..k, delays bounded, k + 1 sends observed, and on Eof the events are the one-pass decoding of the whole body |
| `ExecutorTheorems.BodyDecodes` | crates/ai/src/executor.rs:150-190 | whatever ends the body, the events yielded are a prefix of the decoding of any continuation; a body closes with Eof exactly when its one-pass decoding does not fail |
| `EndToEnd.CutsAreInvisible` | crates/ai/src/executor.rs:72-190 | two runs that differ only in how the network cut intact bodies show the caller the same public events, through the decoder, the executor, either adapter, the assembler and the driver |
| `Overlay.Provider.Models` | crates/ai/src/provider/mod.rs:1095-1127 | the list is own, then catalog, overridden and extended by refreshed, then probed, without retired or disallowed ids |
| `Overlay.Provider.ApplyModelsDev` | crates/ai/src/provider/mod.rs:1135-1164 | a catalog refresh replaces the refreshed layer and updates the retired ids entry by entry |
| `Overlay.Provider.RestoreOverlay` | crates/ai/src/provider/mod.rs:1167-1190 | restoring fills an empty overlay from a snapshot, by probed ids, and leaves any other alone |
| `Overlay.Provider.OverlaySnapshot` | crates/ai/src/provider/mod.rs:1279-1311 | a snapshot is the list, the ids that surface from the probe, and the retired ids |
| `OverlayTheorems.RestoreKeepsModels` | crates/ai/src/provider/mod.rs:1095-1190 | restoring a snapshot into a fresh provider with the same baseline gives the same list in the same order if and only if, under every id, the last listed model stamped with the provider (if any) is the first listed |
| `OverlayTheorems.FirstIsLastOfStamped` | crates/ai/src/provider/mod.rs:1095-1127 | where every model is stamped that condition says that the first and the last listed under each id are equal |
| `OverlayTheorems.DistinctIdsAreRestored` | crates/ai/src/provider/mod.rs:1095-1190 | in particular with distinct caller ids the list is restored |
| `OverlayTheorems.DiscoverySurvivesRestart` | crates/ai/src/provider/mod.rs:1279-1311 | the same, exactly when, for whatever any sequence of refreshes and probes has found; always with distinct caller ids |
| `OverlayTheorems.Discover` | crates/ai/src/provider/mod.rs:1135-1275 | any sequence of catalog refreshes and installed probes on the provider object leaves the layers the theorems speak of |
| `OverlayTheorems.RepeatedOwnIdIsNotRestored` | crates/ai/src/provider/mod.rs:1095-1190 | with two caller models under one id it fails |
| `OverlayTheorems.RetiredByTheLastCatalog` | crates/ai/src/provider/mod.rs:1135-1164 | over any sequence of refreshes and probes an id is retired exactly when the last allowed catalog entry that named it marked it deprecated |
| `OverlayTheorems.ServedExactly` | crates/ai/src/provider/mod.rs:1095-1127 | an id is listed exactly when some layer knows it, it is allowed and it is not retired, whatever a probe returns |

## Left out

- HTTP, TLS, timers, random number generators, environment variables and futures: sends, waits, draws and exchanges are data a run is given.
- Lossy UTF-8 decoding: an arbitrary function on a line's bytes; a byte is a bare number.
- serde_json's number range and recursion limits, and the depth of the stack: numbers are tokens and nesting is unbounded.
- Reading chunk JSON into its fields, merging reasoning details and writing them down: functions the OpenAI adapter is given; token-count normalization is part of reading.
- Request bodies, including the message list, tool-result grouping and separators: they would add members that one reading settles.
- Reserved-key, temperature, tool-choice and cache-retention preflights and authentication: their outcomes are parameters of the driver.
- Usage cost, one-hour cache writes, and the 64-bit wrap of a token total; the 32-bit wrap of `max_retries + 1`.
- Diagnostic wording: a diagnostic is a code with a count, and a library error text names its cause instead of a sentence.
- Observer payloads, redaction and `Debug` output: only which sends and responses are observed is kept.
- FNV collision freedom: the hash is computed exactly, but two invalid ids may still be rewritten to one; `IdempotentExactly` names that as its condition.
- RepairAnswersEveryCall: says that a result exists, not where or how many; `Replays.RepairedIsLegalExactly` says both.
- NormalizedIsClean: likewise says only that results exist; `Replays.NormalizedIsLegalExactly` says where they stand.
- Content blocks and `ToolCall` updated in place: they are values replaced in the content vector, so aliasing between a block and the vector is not captured.
- OAuth wire flows, PKCE, browser interaction, clocks, the session's `resolve` and `check_auth`: only the coordination of refresh, login and logout is modelled; a store that reports an error leaves its contents unchanged.
- Cancellation of a login, which happens before anything is stored.
- Catalog file parsing and models.dev fields beyond id, name, limits and the deprecation mark; probing itself, whose result is a parameter.
- Waking and scheduling of streams: polling is a call that returns the next event.
