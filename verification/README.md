# Speechly streaming: a verified model

The plugin records a microphone, resamples it to 16 kHz, streams it to a speech
service over an asynchronous gRPC stream and assembles the answers. This project
models the parts of that path whose correctness is not visible in any single
function body, and proves what they promise.

| module | file | models |
|---|---|---|
| `Resampler` | Resampler.dfy | the FIR filter and decimation of `FSpeechRecorder`, chunk by chunk |
| `AudioGate` | AudioGate.dfy | 16-bit conversion, and holding audio back until the server has started |
| `StreamClient`, `SpeechlyClientModel` | StreamClient.dfy, SpeechlyClient.dfy | the stream worker as a state machine against a completion queue, and the object |
| `Keys`, `Responses`, `Broadcasting` | Keys.dfy, Responses.dfy, Broadcasts.dfy | the response index of `Tick`, and what listeners hear over a run |
| `Utterances` | Utterances.dfy | what listeners hear of every key, read off the payloads of its messages |
| `TextQuery` | TextQuery.dfy | the answer to a written query, sent through the same index |
| `SpeechlyModel` | Speechly.dfy | `USpeechly` as an object, with the object of `SpeechlyClientModel` as its client |
| `Protocol` | Protocol.dfy | what travels to the server |
| `CallOps`, `Interception`, `CallOpSetModel` | CallOps.dfy, Interception.dfy, CallOpSet.dfy | gRPC batches on their way through interceptors and core |
| `CompletionQueueModel` | CompletionQueue.dfy | many batches on one queue, and the counter that delays its shutdown |
| `Trips` | Trips.dfy | which interceptors run, over every run of that system |
| `BatchContents` | BatchContents.dfy | which operations reach core and which hook points interceptors see, over every run |
| `CallbackLifetime` | CallbackLifetime.dfy | the count that decides when `OnDone` runs |

Each component has two layers. Functions on values say what every operation does
to the state, and lemmas about all runs of those functions say what it is good
for. Classes with the program's own fields and methods are proved against the
functions: the `ensures` of each method is the function's result, so the lemmas
hold of the objects. What a function means is stated without it, in terms of
inputs, payloads, slots and events: see `ImpulseResponse` and `OutputsMix`,
`RunGoesOnExactlyWhen`, `LastBroadcastTells`, `UnhijackedHandsOver`. The
`Valid()` of `FSpeechRecorder`, `SpeechlyClient`, `USpeechly` and
`ClientCallbackReaderWriterImpl`, and `USpeechly.Gated()`, say that the object
is where a run of the machine has led; the methods keep them, `Gated()` as long
as the client accepts writes. `USpeechly` and its client together carry audio
from the recorder's output to the writes of the stream, and messages from the
reads of the stream to the listeners.

What was found where the code is not what one would expect:

- Splitting the input into chunks changes nothing exactly when the sample ratio
  or its inverse is a whole number (`ChunkingInvisibleExactlyWhenExact`); for any
  other ratio some legal split gives another number of outputs
  (`InexactRunDiverges`).
- Audio captured before the server has started is sent only if one more chunk
  comes afterwards (`AllSentExactlyWhen`, `ShortUtteranceIsLost`).
- A tick that sees a keyed message of a context after its finished message
  removes it again, so ticks of different lengths then disagree
  (`TickIsFoldExactlyWhen`, `RevivedContextIsForgotten`).
- Keys are injective for segment ids that are not negative and collide for
  negative ones in one family of cases (`KeysCollideExactlyWhen`).
- An empty word after a non-empty one leaves an extra space in the transcript
  (`TranscriptIsJoinExactlyWhen`, `ExtraSpaceIsHeard`); in every case it is the join
  of the words from the first non-empty one on (`TranscriptIsJoin`).
- A comment (Source/Speechly/Private/SpeechlyClient.cpp:258) says that the stream
  is finished with no read or write pending. The code can call `Finish` with one
  operation pending, or two after a timeout; `PendingAtFinish` says exactly when
  nothing is, and `FinishCanMeetPendingWrite` is such a run. The model follows
  the code. From there on a failed event of the older operation ends the wait for
  Finish, and the status is read before it is there (`StatusIsThereExactlyWhen`,
  `StatusCanBeReadTooEarly`).
- A batch already past interceptor h on its way down when another batch hijacks
  the call at h is cut short and reaches core with its operations
  (`OverlappingTrips`, `CutBatchReachesCore`). One on its way up above h still
  runs the interceptors between, which are above the hijacking one
  (`WhoRunsAboveTheHijacker`, `OneAboveRuns`).
- An intercepted batch begun after core was shut down makes core shut down a
  second time when it ends (`FillSafeExactlyWhileOpen`,
  `LateBatchShutsDownAgain`).
- A read or write started in a reaction, or under a hold, after StartCall has
  posted its first batch and before it has set the tags, gets no reaction, and
  the call never gets `OnDone` (`UntaggedIsLost`); the first reaction can come
  that early (`ReactionCanOvertakeTags`).
- A second WritesDone fails an assertion, also after the reaction of the first
  (`SecondWritesDoneAborts`). Two reads before StartCall keep `OnDone` from ever
  running (`PostedTwice`). `OperationSafeExactlyWhen` says exactly which
  operations are safe.

What the code relies on and the model states as preconditions:

- The sample ratio R is positive and at most F - 1/2 for a filter of F taps; the
  first chunk after the buffer was emptied has more than F - R frames and every
  later one has at least one. `SafeExactlyWhenEnough` shows that the first half
  is exact for a single callback.
- Segment ids are not negative (`Sound`).
- The server sends nothing for a context after that context's finished message
  (`Orderly`); only the claims about what is broadcast need it, each for its own
  context only.
- The completion queue hands out pending tags, each once, in any order and with
  any success bit, and reports shutdown only once shut down and empty.
- One interceptor hijacks a call, before it proceeds. The interface allows that
  only in the batch that sends the initial metadata; the laws hold for a hijack in
  any batch on its way down, and the runs given keep to the interface.
- Callback operations are started before `StartCall`, inside a reaction or under
  a hold, at most one of each kind at a time and WritesDone once; reads and writes
  not between the first post of `StartCall` and the setting of their tags.

Samples are reals. `RoundToInt(x)` is floor(x + 1/2) and `CeilToInt` is the
ceiling. Threads are interleaved steps, each atomic.

## Model

| member | source | states |
|---|---|---|
| `Resampler.SafeExactlyWhenEnough` | Source/Speechly/Private/SpeechRecorder.cpp:128-150 | for every ratio and filter, no read or copy of one callback leaves the buffer if and only if more than F - R samples are in it; otherwise the shift starts below index zero |
| `Resampler.EnoughIffLengthNonNegative` | Source/Speechly/Private/SpeechRecorder.cpp:128-128 | the rounded-up output length is not negative exactly under that condition |
| `Resampler.WindowInBounds` | Source/Speechly/Private/SpeechRecorder.cpp:131-139 | every window the filter is applied to lies inside the buffer, whatever the rounding of the offset |
| `Resampler.LeftoverBounds` | Source/Speechly/Private/SpeechRecorder.cpp:141-154 | a callback leaves more than F - R - 1/2 and at most F samples |
| `Resampler.PreconditionsSuffice` | Source/Speechly/Private/SpeechRecorder.cpp:109-158 | over any run, the stated chunk sizes make every callback safe and keep the leftover within its bounds |
| `Resampler.RunExplainsInput` | Source/Speechly/Private/SpeechRecorder.cpp:122-154 | over any run the buffer is the unconsumed suffix of all input and every output is the filter sum over the whole input at one position: nothing lost, repeated or reordered; `ImpulseResponse` and `OutputsMix` say what that sum is |
| `Resampler.ImpulseResponse` | Source/Speechly/Private/SpeechRecorder.cpp:131-139 | over any run, for an input that is 1 at position q and 0 elsewhere, an output whose window covers q is the tap lying on q, and every other output is 0 |
| `Resampler.OutputsMix` | Source/Speechly/Private/SpeechRecorder.cpp:131-139 | outputs add and scale when inputs captured in chunks of the same lengths do: with the impulse response this determines every output of every run |
| `Resampler.LengthsDecide` | Source/Speechly/Private/SpeechRecorder.cpp:128-154 | how many outputs a run has, and where each was taken, depends on the lengths of the chunks alone |
| `Resampler.DriftIsAtMostHalfPerChunk` | Source/Speechly/Private/SpeechRecorder.cpp:128-141 | after c chunks every output, and the next, was taken within c/2 samples of R times its number |
| `Resampler.OutputCountFollowsInput` | Source/Speechly/Private/SpeechRecorder.cpp:128-141 | R times the number of outputs is within c/2 + R + 1/2 of n - F |
| `Resampler.ExactRunHasNoDrift` | Source/Speechly/Private/SpeechRecorder.cpp:128-141 | with a whole ratio or whole inverse ratio no position drifts over any run |
| `Resampler.ExactRunIsOneShot` | Source/Speechly/Private/SpeechRecorder.cpp:122-157 | then any legal split gives the outputs and leftover of one callback on the whole input: ceil((n-F)/R) outputs, output k taken at R*k |
| `Resampler.InexactRunDiverges` | Source/Speechly/Private/SpeechRecorder.cpp:128-154 | for every other ratio there is a legal split whose number of outputs is not that of one callback |
| `Resampler.ChunkingInvisibleExactlyWhenExact` | Source/Speechly/Private/SpeechRecorder.cpp:122-157 | chunking never shows, in the outputs alone or in outputs and leftover, if and only if the ratio or its inverse is whole |
| `Resampler.ConstantSignalPasses` | Source/Speechly/Private/SpeechRecorder.cpp:160-183 | a normalised filter passes a constant signal unchanged over any run |
| `Resampler.FSpeechRecorder.OnAudioCapture` | Source/Speechly/Private/SpeechRecorder.cpp:109-158 | one callback: nothing unless capturing; otherwise the first channel is appended, `Output` and `Buffer` become the outputs and leftover of the input so far, and the object stays on a run of callbacks, whose outputs the laws above determine |
| `Resampler.FSpeechRecorder.Resample` | Source/Speechly/Private/SpeechRecorder.cpp:128-139 | the nested loops compute the outputs of the buffer, the filter sum of every window |
| `Resampler.FSpeechRecorder.ShiftLeftover` | Source/Speechly/Private/SpeechRecorder.cpp:141-154 | the overlapping in-place move leaves exactly the unread suffix |
| `Resampler.FSpeechRecorder.GenerateFilter` | Source/Speechly/Private/SpeechRecorder.cpp:160-183 | 23 taps, each its sinc value over their sum, together one |
| `Resampler.FSpeechRecorder.Start` | Source/Speechly/Private/SpeechRecorder.cpp:73-100 | sets ratio and filter only when the stream is opened, and always starts capturing |
| `Resampler.FSpeechRecorder.Stop` | Source/Speechly/Private/SpeechRecorder.cpp:102-107 | stops capturing and empties the buffer |
| `Resampler.FSpeechRecorder.OneFrameIsEnough` | Source/Speechly/Private/SpeechRecorder.cpp:122-154 | after the first callback since the buffer was empty, a callback of one frame is always safe |
| `Resampler.FSpeechRecorder.SentIsOneShot` | Source/Speechly/Private/SpeechRecorder.cpp:109-158 | for a whole ratio or inverse ratio, all the object has sent since the buffer was empty, and its buffer, are what one callback on all that was captured gives |
| `Resampler.FirstChannelAt` | Source/Speechly/Private/SpeechRecorder.cpp:122-126 | frame i contributes its first channel, at index i times the channel count |
| `Resampler.TapsAreSymmetric` | Source/Speechly/Private/SpeechRecorder.cpp:165-179 | for an even sinc the 23 taps are symmetric about sinc(0) |
| `Resampler.TapsStep` | Source/Speechly/Private/SpeechRecorder.cpp:165-179 | neighbouring taps are the target rate over the device's rate apart, and the middle one is at zero |
| `AudioGate.Encode` | Source/Speechly/Private/Speechly.cpp:245-255 | two bytes, the low one first, that decode to the sample again, for all 16-bit values |
| `AudioGate.SampleMeans` | Source/Speechly/Private/Speechly.cpp:252-254 | samples in [-1, 1] are truncated toward zero on the asymmetric scale, louder ones clipped |
| `AudioGate.SampleIsMonotone` | Source/Speechly/Private/Speechly.cpp:252-254 | conversion keeps the order of samples across sign and clipping |
| `AudioGate.PcmDecodes` | Source/Speechly/Private/Speechly.cpp:239-256 | the bytes of a chunk decode, in order, to its converted samples |
| `AudioGate.NothingLostOrReordered` | Source/Speechly/Private/Speechly.cpp:272-294 | over every interleaving of game and audio thread, audio enqueued since Start followed by AudioBuffer is exactly what was captured since Start emptied AudioBuffer |
| `AudioGate.NoAudioBeforeStarted` | Source/Speechly/Private/Speechly.cpp:48-68 | no audio is enqueued between a Start and the first started response handled after it, and START is the first request |
| `AudioGate.AllSentExactlyWhen` | Source/Speechly/Private/Speechly.cpp:272-294 | everything captured since Start emptied AudioBuffer has been enqueued if and only if nothing was captured or a chunk came after the gate opened |
| `AudioGate.ShortUtteranceIsLost` | Source/Speechly/Private/Speechly.cpp:70-85 | for every chunk, a complete legal run that never sends it |
| `AudioGate.CapturingExactlyWhen` | Source/Speechly/Private/Speechly.cpp:131-149 | the recorder runs exactly when it was started and neither a Stop nor the end of the context last started has come since |
| `AudioGate.SilenceIsTail` | Source/Speechly/Private/Speechly.cpp:258-270 | over every run SilenceCount is the number of samples since silence was last reset, by audio or by exceeding five seconds; up to five seconds that is all the silence since the last audio |
| `AudioGate.SilenceIsZeros` | Source/Speechly/Private/Speechly.cpp:245-262 | a chunk counts as silence exactly if all its samples are zero |
| `StreamClient.RunKeepsInv` | Source/Speechly/Private/SpeechlyClient.cpp:128-349 | the invariant on tags, flags, requests and responses holds in every state of every interleaving |
| `StreamClient.ChecksNeverFail` | Source/Speechly/Private/SpeechlyClient.cpp:366-380 | the checks of StreamWrite and StreamRead never fail |
| `StreamClient.FlagsTellWhatIsPending` | Source/Speechly/Private/SpeechlyClient.cpp:356-392 | a flag is false exactly when one operation of its kind, with the last tag, is pending; never more than one of each |
| `StreamClient.EveryPolledTagIsKnown` | Source/Speechly/Private/SpeechlyClient.cpp:202-234 | in the main loop every returned tag is the last write's or the last read's: the unknown-tag branch is dead |
| `StreamClient.MessagesConserved` | Source/Speechly/Private/SpeechlyClient.cpp:156-234 | writes are the config and a prefix of the accepted requests, the rest is queued; every message that a posted read has delivered to the main loop arrives on the response queue once, in order |
| `StreamClient.PollArrivals` | Source/Speechly/Private/SpeechlyClient.cpp:201-234 | a poll enqueues exactly the message that a completed read has just left in the shared buffer, for any tag and any success bit the queue returns |
| `StreamClient.ExitFinishesOnce` | Source/Speechly/Private/SpeechlyClient.cpp:249-349 | Finish is posted at most once, last; Shutdown after it; on SHUTDOWN every tag ever posted was delivered exactly once |
| `StreamClient.PendingAtFinish` | Source/Speechly/Private/SpeechlyClient.cpp:271-300 | at Finish at most one operation is pending after a failed event, and none exactly when that event was the read's and no write was out |
| `StreamClient.FinishCanMeetPendingWrite` | Source/Speechly/Private/SpeechlyClient.cpp:255-300 | a run in which Finish is posted with a write pending |
| `StreamClient.StatusIsThereExactlyWhen` | Source/Speechly/Private/SpeechlyClient.cpp:298-325 | when the finish loop ends, Finish has been delivered if and only if the last event was its own; with nothing else pending every event is |
| `StreamClient.StatusCanBeReadTooEarly` | Source/Speechly/Private/SpeechlyClient.cpp:298-325 | the run above goes on: the write's failed event ends the loop while Finish is pending |
| `StreamClient.ExitGetsCloser` | Source/Speechly/Private/SpeechlyClient.cpp:301-347 | each event of the last two loops shrinks a lexicographic measure |
| `StreamClient.ReturnCodeTellsError` | Source/Speechly/Private/SpeechlyClient.cpp:135-247 | Run works without an error, returns 1 if and only if one was recorded, and a recorded error stays; which events record one is said by the next two rows |
| `StreamClient.FailedEventEndsRun` | Source/Speechly/Private/SpeechlyClient.cpp:135-234 | over every run, a failed event that Run waits for makes it return 1 with an error recorded and nothing posted; once the stream is open the client also stops running |
| `StreamClient.RunGoesOnExactlyWhen` | Source/Speechly/Private/SpeechlyClient.cpp:135-247 | Run goes on if and only if the event was a success, or in the loop none came in time; opening and configuring wait for their own event; the configuration is written exactly when the stream has opened; a queue shut down ends Run with 0 and stops the client |
| `StreamClient.LoopDoesItsWork` | Source/Speechly/Private/SpeechlyClient.cpp:183-196 | between events the loop is left exactly when stopped or failed, writes the oldest request whenever it may, and always has a read out, as does the drain loop |
| `StreamClient.ExitGoesOnExactlyWhen` | Source/Speechly/Private/SpeechlyClient.cpp:270-347 | the drain loop goes on exactly after a successful event and otherwise posts Finish; the last loop goes on after every event and ends on SHUTDOWN or timeout |
| `StreamClient.StoppedForGood` | Source/Speechly/Private/SpeechlyClient.cpp:183-183 | a client that has stopped running never runs again, over every continuation |
| `SpeechlyClientModel.SpeechlyClient.Run` | Source/Speechly/Private/SpeechlyClient.cpp:128-247 | the worker, statement by statement, is a run of the machine, and unless it returns it goes through all the rounds asked for |
| `SpeechlyClientModel.SpeechlyClient.Exit` | Source/Speechly/Private/SpeechlyClient.cpp:249-349 | so is Exit, up to its return; it is left in its drain loop only after all the rounds asked for |
| `SpeechlyClientModel.SpeechlyClient.StreamWrite` | Source/Speechly/Private/SpeechlyClient.cpp:366-372 | posts a write under a fresh tag and closes the flag |
| `SpeechlyClientModel.SpeechlyClient.StreamRead` | Source/Speechly/Private/SpeechlyClient.cpp:374-380 | the same for reads |
| `SpeechlyClientModel.SpeechlyClient.HandleTag` | Source/Speechly/Private/SpeechlyClient.cpp:382-392 | reopens the flag of the operation the tag belongs to |
| `SpeechlyClientModel.SpeechlyClient.Write` | Source/Speechly/Private/SpeechlyClient.cpp:22-30 | accepts exactly while running without error, and keeps the object on a run of the machine |
| `SpeechlyClientModel.SpeechlyClient.Read` | Source/Speechly/Private/SpeechlyClient.cpp:32-40 | takes the oldest response exactly while running without error |
| `Keys.KeysCollideExactlyWhen` | Source/Speechly/Public/Speechly.h:94-100 | two messages share a key if and only if context and segment agree, or the contexts differ by one trailing dash and the segments are opposite |
| `Keys.NatKeyInjective` | Source/Speechly/Public/Speechly.h:94-100 | printed keys determine context and segment when segments are not negative |
| `Keys.KeyReads` | Source/Speechly/Public/Speechly.h:94-100 | a key is the context, a dash, a minus sign if needed, and digits that read as the segment, without leading zeros |
| `Responses.TickKeepsConsistent` | Source/Speechly/Private/Speechly.cpp:117-224 | after every message and tick the keys of Responses are the union of the sets of ContextToKeys; a finished context leaves nothing in either map |
| `Responses.ContextsDisjoint` | Source/Speechly/Public/Speechly.h:94-100 | the key sets of different contexts are disjoint |
| `Responses.NoChangeGoesUnheard` | Source/Speechly/Private/Speechly.cpp:204-211 | every changed key is still there when the tick broadcasts |
| `Responses.ErrorsReported` | Source/Speechly/Private/Speechly.cpp:138-143 | a tick reports an error for exactly the contexts that failed in it, each with its last error |
| `Responses.TickIsFoldExactlyWhen` | Source/Speechly/Private/Speechly.cpp:117-224 | a tick equals handling its messages one at a time with clean-up at once if and only if no context gets a keyed message after its last finished message in the tick |
| `Responses.RevivedContextIsForgotten` | Source/Speechly/Private/Speechly.cpp:117-224 | a tick of a finished message and a transcript of its context forgets the word that one message at a time would keep |
| `Responses.SplittingIsInvisible` | Source/Speechly/Private/Speechly.cpp:122-224 | any splitting of the stream into such ticks gives the same maps as the fold of the stream |
| `Broadcasting.TickTracks` | Source/Speechly/Private/Speechly.cpp:117-224 | a tick broadcasts a key exactly when it got a message or what it should show changed, with the fold of all its messages so far; `EveryBroadcastTells` says what the fold means |
| `Broadcasting.LastBroadcastIsTheFold` | Source/Speechly/Private/Speechly.cpp:117-231 | over any run and any splitting, the last broadcast of a key carries the fold of all its messages and is final once the context has finished; other keys are never heard |
| `Broadcasting.FinalIsHeardOnce` | Source/Speechly/Private/Speechly.cpp:151-166 | a key no segment end has closed is heard final exactly once, when its context finishes |
| `Utterances.LastBroadcastTells` | Source/Speechly/Private/Speechly.cpp:117-211 | over any run and any splitting, a key is heard if and only if a message of it came, and last with its words from the first non-empty one on, joined by spaces, each entity with its last value, the last intent, and final if and only if a segment end of it came or its context finished |
| `Utterances.EveryBroadcastTells` | Source/Speechly/Private/Speechly.cpp:117-211 | the same of every broadcast of every tick, for the messages up to its end |
| `TextQuery.WLUSync` | Source/Speechly/Private/SpeechlyClient.cpp:54-94 | the nested loops enqueue tokens, entities and intent of each segment in order, then one finished message; what that makes listeners hear, and that it makes no error, are the next rows |
| `TextQuery.AnswerIsHeard` | Source/Speechly/Private/SpeechlyClient.cpp:42-99 | an answer interleaved with any other contexts and split into any ticks is heard final exactly once and last, with its words, merged entities and last intent; an empty answer is not heard |
| `TextQuery.AnswerReportsNoError` | Source/Speechly/Private/SpeechlyClient.cpp:90-94 | over every interleaving and splitting no tick reports an error of the answer's context |
| `TextQuery.TranscriptIsJoinExactlyWhen` | Source/Speechly/Private/Speechly.cpp:168-178 | the transcript is the space-join of the non-empty words if and only if no empty word follows a non-empty one |
| `TextQuery.TranscriptIsJoin` | Source/Speechly/Private/Speechly.cpp:168-178 | in every case it is the space-join of the words from the first non-empty one on |
| `TextQuery.ExtraSpaceIsHeard` | Source/Speechly/Private/Speechly.cpp:168-178 | the answer of the words "a" and "" is heard as "a" and a space, over any interleaving and splitting |
| `TextQuery.MergedLaterWins` | Source/Speechly/Private/Speechly.cpp:179-187 | entities end as exactly the names seen, each with its last value |
| `SpeechlyModel.USpeechly.Tick` | Source/Speechly/Private/Speechly.cpp:102-231 | the tick as a method: at most ten reads in order, maps, gate and calls to the delegates as the functions say, the rest of the queue left, and the object stays on a run, of which the rows on what was said speak |
| `SpeechlyModel.USpeechly.HandleResponse` | Source/Speechly/Private/Speechly.cpp:131-201 | one turn of the reading loop, for every kind of message, on both maps, the local sets and the gate |
| `SpeechlyModel.USpeechly.ForgetAll` | Source/Speechly/Private/Speechly.cpp:213-224 | the deferred clean-up, key by key, in whatever order the sets are walked |
| `SpeechlyModel.USpeechly.BroadcastChanged` | Source/Speechly/Private/Speechly.cpp:204-211 | one call for each changed key, with its entry |
| `SpeechlyModel.USpeechly.KeyOfMessage` | Source/Speechly/Public/Speechly.h:94-100 | prints the key and files it under its context |
| `SpeechlyModel.USpeechly.LastSaidIsTheFold` | Source/Speechly/Private/Speechly.cpp:102-231 | the last call made for a key since Connect carries the fold of all its messages |
| `SpeechlyModel.USpeechly.LastSaidTells` | Source/Speechly/Private/Speechly.cpp:117-211 | the last call made for a key since Connect reads as its messages say, in transcript, entities, intent and finality; there is one if and only if a message of it was read |
| `SpeechlyModel.USpeechly.AnswerCallsOutNoError` | Source/Speechly/Private/SpeechlyClient.cpp:90-94 | OnSpeechlyError is never called for the context of an answered query |
| `SpeechlyModel.TickObserves` | Source/Speechly/Private/Speechly.cpp:131-149 | a tick opens the gate exactly if it reads a started response, stops the recorder exactly if the context last started finishes in it, and touches nothing else of the gate |
| `SpeechlyModel.EnoughTicksReadAll` | Source/Speechly/Private/Speechly.cpp:122-130 | n ticks of a running client read all that is queued if and only if that is at most ten n responses |
| `SpeechlyModel.USpeechly.AudioIsAllThere` | Source/Speechly/Private/Speechly.cpp:233-295 | audio written to the stream since Start, then audio in the request queue, then AudioBuffer, are exactly what was captured since Start emptied AudioBuffer; until started was handled there is none on the stream or in the queue |
| `SpeechlyModel.USpeechly.ResponsesAreAllThere` | Source/Speechly/Private/SpeechlyClient.cpp:201-234 | what the ticks have read, then the response queue, is all that has arrived, of which the stream's part is what successful reads delivered, in order |
| `SpeechlyModel.USpeechly.WorkerDisturbsNothing` | Source/Speechly/Private/SpeechlyClient.cpp:183-247 | any step of the worker between two calls leaves the object on its runs |
| `SpeechlyModel.USpeechly.Convert` | Source/Speechly/Private/Speechly.cpp:239-256 | the in-place conversion leaves exactly the chunk's bytes at the front of CharAudio, no stale ones |
| `SpeechlyModel.USpeechly.OnSpeechAudio` | Source/Speechly/Private/Speechly.cpp:233-295 | buffers or sends as the gate says, ignores empty chunks and a lost connection, counts silence |
| `SpeechlyModel.USpeechly.Start` | Source/Speechly/Private/Speechly.cpp:48-68 | the four steps of the gate, or, when START is refused, no client and no recording |
| `SpeechlyModel.USpeechly.Stop` | Source/Speechly/Private/Speechly.cpp:70-85 | stops the recorder, then sends STOP, or drops the client |
| `SpeechlyModel.USpeechly.Connect` | Source/Speechly/Private/Speechly.cpp:25-46 | a new client and empty maps; gate, buffer and last context stay; a new history begins |
| `SpeechlyModel.USpeechly.SendText` | Source/Speechly/Private/Speechly.cpp:92-100 | enqueues the answer behind what is queued, if connected and answered, and the object stays on a run; `AnswerIsHeard` and `AnswerCallsOutNoError` say what comes of it |
| `CallOps.OpsAddedFit` | GrpcIncludes/include/grpcpp/impl/codegen/call_op_set.h:924-937 | a batch never has more operations than slots |
| `CallOps.HijackedOpsReachNobody` | GrpcIncludes/include/grpcpp/impl/codegen/call_op_set.h:914-937 | a hijacked batch adds no operation |
| `CallOps.CoreGetsAll` | GrpcIncludes/include/grpcpp/impl/codegen/call_op_set.h:924-937 | core gets one operation for every slot that holds one, was asked for and is not hijacked, whatever its kind |
| `CallOps.HookKinds` | GrpcIncludes/include/grpcpp/impl/codegen/call_op_set.h:950-980 | the three hook sets are each of one kind, for every combination of active operations |
| `CallOps.StartHooksShown` | GrpcIncludes/include/grpcpp/impl/codegen/call_op_set.h:950-960 | on the way down a hook point is shown if and only if an active slot has it as its own |
| `CallOps.FinishHooksShown` | GrpcIncludes/include/grpcpp/impl/codegen/call_op_set.h:969-981 | the same on the way up |
| `CallOps.HijackHooksShown` | GrpcIncludes/include/grpcpp/impl/codegen/call_op_set.h:914-921 | the same to the interceptor that hijacks |
| `CallOps.HijackedStatus` | GrpcIncludes/include/grpcpp/impl/codegen/call_op_set.h:885-891 | a hijacked batch succeeds if and only if core reports success and no interceptor failed its message |
| `CallOps.BatchStatus` | GrpcIncludes/include/grpcpp/impl/codegen/call_op_set.h:448-466 | a batch succeeds if and only if core reports success and no slot fails, in whatever order the slots stand |
| `CallOps.GotMessage` | GrpcIncludes/include/grpcpp/impl/codegen/call_op_set.h:448-466 | a receiving slot got its message exactly when all slots before it were well and a message deserialised; a hijacked one keeps the interceptor's word |
| `CallOps.SendFailure` | GrpcIncludes/include/grpcpp/impl/codegen/call_op_set.h:332-341 | a message counts as not sent exactly if an interceptor said so or the batch had failed by then |
| `CallOps.RefusalFails` | GrpcIncludes/include/grpcpp/impl/codegen/interceptor_common.h:132-136 | a hijacked batch whose message an interceptor fails ends in failure exactly if there is a message to send, or core reports one |
| `CallOps.HijackedReceive` | GrpcIncludes/include/grpcpp/impl/codegen/call_op_set.h:481-487 | what a hijacker lets a batch receive counts as received, and nothing of the batch is left for core |
| `CallOps.SlotsAfterTrip` | GrpcIncludes/include/grpcpp/impl/codegen/call_op_set.h:872-900 | a trip uses up every operation but receives of messages and what a hijacker kept from core |
| `Interception.FillOpsKeepsInv` | GrpcIncludes/include/grpcpp/impl/codegen/call_op_set.h:858-870 | beginning a trip establishes the batch invariant, with or without interceptors |
| `Interception.ProceedKeepsInv` | GrpcIncludes/include/grpcpp/impl/codegen/interceptor_common.h:311-349 | every answer of an interceptor keeps it, so the position an interceptor is run at always exists |
| `Interception.HijackKeepsInv` | GrpcIncludes/include/grpcpp/impl/codegen/interceptor_common.h:63-76 | so does hijacking |
| `Interception.FinalizeKeepsInv` | GrpcIncludes/include/grpcpp/impl/codegen/call_op_set.h:872-900 | so does each event from core |
| `Interception.HooksNeverMix` | GrpcIncludes/include/grpcpp/impl/codegen/interceptor_common.h:202-213 | at every interception the hook points are all PRE_SEND, all PRE_RECV or all POST |
| `Interception.ProceedGetsCloser` | GrpcIncludes/include/grpcpp/impl/codegen/interceptor_common.h:311-349 | a pass shrinks a lexicographic measure with every answer |
| `Trips.UnhijackedTrips` | GrpcIncludes/include/grpcpp/impl/codegen/interceptor_common.h:287-349 | over every run of any calls and batches, every trip of a batch whose call is not hijacked runs 0..n-1 once each, then core gets the batch once, then n-1..0 once each, then the result; `UnhijackedTripsInFull` says with which operations |
| `BatchContents.UnhijackedTripsInFull` | GrpcIncludes/include/grpcpp/impl/codegen/call_op_set.h:858-937 | the same trip with what core gets: as many operations as slots that hold one and that were asked for or carried over |
| `BatchContents.UnhijackedHandsOver` | GrpcIncludes/include/grpcpp/impl/codegen/call_op_set.h:858-937 | over every run, with or without interceptors, core gets one operation for each such slot, and a trip uses up the rest |
| `BatchContents.ShownOnTheWayDown` | GrpcIncludes/include/grpcpp/impl/codegen/call_op_set.h:950-960 | over every run an interceptor on the way down is shown exactly the hook points of the active slots, the hijacking one, once more, those of what can be received |
| `BatchContents.ShownOnTheWayUp` | GrpcIncludes/include/grpcpp/impl/codegen/call_op_set.h:969-981 | on the way up every interceptor is shown exactly those of what has come back |
| `BatchContents.RefusedMessageFails` | GrpcIncludes/include/grpcpp/impl/codegen/interceptor_common.h:132-136 | a message refused by the hijacking interceptor fails the batch through the machine's own steps |
| `Trips.HijackedTrips` | GrpcIncludes/include/grpcpp/impl/codegen/interceptor_common.h:311-349 | over every run, every trip begun after h hijacked the call runs 0..h and h again, hands core no operation, and runs h..0 |
| `Interception.HijackingPass` | GrpcIncludes/include/grpcpp/impl/codegen/interceptor_common.h:63-76 | the hijacking interceptor is run once more at once |
| `Trips.OverlappingTrips` | GrpcIncludes/include/grpcpp/impl/codegen/interceptor_common.h:324-340 | a trip at interceptor i on its way down when another batch hijacks at h ends, over every run from there, like a hijacked one if i <= h, and otherwise is cut short, hands core its operations and goes up from h |
| `Trips.EveryTripIsOnCourse` | GrpcIncludes/include/grpcpp/impl/codegen/interceptor_common.h:287-349 | in every state of every run every trip is on the course of a whole pass down, core, and a whole pass up from n-1 or the hijacking interceptor |
| `Trips.WhoRunsAboveTheHijacker` | GrpcIncludes/include/grpcpp/impl/codegen/interceptor_common.h:341-348 | after a hijack at h, over every run, interceptors above h run for exactly the batches already on their way up above h, and for those exactly the remaining ones in descending order |
| `Trips.OneAboveRuns` | GrpcIncludes/include/grpcpp/impl/codegen/interceptor_common.h:341-348 | a run in which interceptor 0 hijacks at the initial metadata and interceptor 1 runs afterwards, for the batch receiving the status, which had come back before |
| `Trips.CutBatchReachesCore` | GrpcIncludes/include/grpcpp/impl/codegen/interceptor_common.h:324-340 | a run in which interceptor 0 hijacks at the initial metadata and the batch receiving the status, then with interceptor 1, skips interceptor 2 and hands core its operation |
| `Interception.ResultIsFirstStatus` | GrpcIncludes/include/grpcpp/impl/codegen/call_op_set.h:872-900 | the application gets the tag and the status computed at the first event, whatever the second reports |
| `Interception.ServerIsUnhijackedClient` | GrpcIncludes/include/grpcpp/impl/codegen/interceptor_common.h:351-372 | the server's Proceed is the client's exactly unless the call is hijacked at or below the position |
| `CallOpSetModel.CallOpSet.FillOps` | GrpcIncludes/include/grpcpp/impl/codegen/call_op_set.h:858-870 | the object's step is that of the batch machine, whose operations for core `CoreGetsAll` counts, and it holds the queue from then on exactly when there are interceptors |
| `CallOpSetModel.CallOpSet.FinalizeResult` | GrpcIncludes/include/grpcpp/impl/codegen/call_op_set.h:872-900 | the same, with tag, status and whether there is a result; the second event gives the queue back |
| `CallOpSetModel.CallOpSet.Proceed` | GrpcIncludes/include/grpcpp/impl/codegen/interceptor_common.h:311-349 | the same |
| `CallOpSetModel.CallOpSet.Hijack` | GrpcIncludes/include/grpcpp/impl/codegen/interceptor_common.h:63-76 | the same, and the call is marked |
| `CallOpSetModel.CallOpSet.RunInterceptors` | GrpcIncludes/include/grpcpp/impl/codegen/call_op_set.h:950-967 | begins the pass down and registers the avalanche exactly when there are interceptors |
| `CallOpSetModel.CompletionQueue.CompleteAvalanching` | GrpcIncludes/include/grpcpp/impl/codegen/completion_queue_impl.h:376-381 | the counter is always the number of holders, the unreleased reservation and the op sets with an intercepted batch in flight; core has been shut down, once, exactly when there is no holder |
| `CompletionQueueModel.NextKeepsInv` | GrpcIncludes/include/grpcpp/impl/codegen/completion_queue_impl.h:369-381 | with any number of calls and batches in any interleaving, the counter and every batch keep their invariants |
| `CompletionQueueModel.OneResultPerFill` | GrpcIncludes/include/grpcpp/impl/codegen/call_op_set.h:858-900 | over every run the tags delivered for a batch are the tags filled, in order, once each |
| `CompletionQueueModel.ShutdownOnceAndOnlyWhenDrained` | GrpcIncludes/include/grpcpp/impl/codegen/completion_queue_impl.h:369-381 | the counter is the reservation plus the intercepted batches in flight; core is shut down at most once, exactly when Shutdown was called and none is; call references balance |
| `CompletionQueueModel.FillSafeExactlyWhileOpen` | GrpcIncludes/include/grpcpp/impl/codegen/completion_queue_impl.h:363-368 | an intercepted batch can be begun with the counter intact if and only if core has not been shut down; there is a continuation in which core is shut down twice if and only if it has |
| `CompletionQueueModel.LateBatchShutsDownAgain` | GrpcIncludes/include/grpcpp/impl/codegen/completion_queue_impl.h:363-381 | from every initial state: Shutdown, then any intercepted batch, brought to its end, shuts core down a second time |
| `CompletionQueueModel.FinishTrip` | GrpcIncludes/include/grpcpp/impl/codegen/interceptor_common.h:311-349 | every intercepted batch can be brought to its end, in any state of the system, and then gives back its count |
| `CompletionQueueModel.EveryInterceptionShowsOneKind` | GrpcIncludes/include/grpcpp/impl/codegen/interceptor.h:48-60 | hook points never mix in any interception of any run |
| `CallbackLifetime.RunKeepsInv` | GrpcIncludes/include/grpcpp/impl/codegen/client_callback_impl.h:430-555 | the count is what is outstanding after every action of every run, reactions between two posts of StartCall included |
| `CallbackLifetime.OnDoneOnceAndLast` | GrpcIncludes/include/grpcpp/impl/codegen/client_callback_impl.h:430-440 | OnDone runs at most once, exactly when nothing is outstanding, after every other reaction; every operation has reacted once |
| `CallbackLifetime.DoneExactlyWhenNothingCanHappen` | GrpcIncludes/include/grpcpp/impl/codegen/client_callback_impl.h:430-555 | the object is destroyed exactly when no action on it is possible any more |
| `CallbackLifetime.OperationSafeExactlyWhen` | GrpcIncludes/include/grpcpp/impl/codegen/client_callback_impl.h:500-550 | over every continuation no assertion fails, every operation gets its reaction and OnDone runs exactly when all is through, if and only if the call is alive, none of the kind waits, WritesDone is the first, and a read or write posted at once has its tag; on a finished call it uses the destroyed object, and in every other case but an overtaken backlog OnDone never runs |
| `CallbackLifetime.UntaggedIsLost` | GrpcIncludes/include/grpcpp/impl/codegen/client_callback_impl.h:448-508 | whenever a read or write is posted before its tag is set, over every continuation it gets no reaction and the call no OnDone |
| `CallbackLifetime.SecondWritesDoneAborts` | GrpcIncludes/include/grpcpp/impl/codegen/client_callback_impl.h:530-550 | a run in which WritesDone is called again under a hold, after its reaction, and the assertion on its tag fails |
| `CallbackLifetime.PostedTwice` | GrpcIncludes/include/grpcpp/impl/codegen/client_callback_impl.h:500-508 | two reads before StartCall: over every continuation OnDone never runs |
| `CallbackLifetime.AliveDuringStartCall` | GrpcIncludes/include/grpcpp/impl/codegen/client_callback_impl.h:602-603 | whatever reactions run meanwhile, OnDone does not run before StartCall has posted its last batch: why the count starts at two |
| `CallbackLifetime.ReactionCanOvertakeTags` | GrpcIncludes/include/grpcpp/impl/codegen/client_callback_impl.h:448-480 | a run whose first reaction starts a read before StartCall has set its tag: over every continuation that read gets no reaction and the call no OnDone |
| `CallbackLifetime.ClientCallbackReaderWriterImpl.MaybeFinish` | GrpcIncludes/include/grpcpp/impl/codegen/client_callback_impl.h:430-440 | the object's step is the machine's |
| `CallbackLifetime.ClientCallbackReaderWriterImpl.StartCall` | GrpcIncludes/include/grpcpp/impl/codegen/client_callback_impl.h:442-498 | posts start, the backlog of each kind and finish one by one, with any reactions and other threads in between, and stays on a run of the machine |
| `CallbackLifetime.ClientCallbackReaderWriterImpl.Read` | GrpcIncludes/include/grpcpp/impl/codegen/client_callback_impl.h:500-508 | counts the operation, and keeps it for the start or posts it, with the tag that is set by then or none |

## Left out

- The gRPC transport, channels, TLS credentials, login and metadata: only the contracts of the completion queue and of one outstanding operation of each kind are used, as an abstract environment.
- Engine plumbing: ticker registration, thread creation, permission prompts, opening the capture device, logging. The delegates are a log of their calls.
- Floating-point rounding, and the values of Sin: samples and taps are reals and sinc is any function whose taps do not sum to zero.
- Case-insensitive comparison of FString keys, UTF-8 conversion and embedded NUL characters: contexts and keys are compared exactly.
- Unsynchronised access: every step is atomic, so torn or reordered reads of bIsRunning, bHasError and bIsBuffering, a chunk cut in two by a Start, and two producers on one queue are not modelled.
- Wrap-around of Seq, SilenceCount and buffer lengths: they are unbounded.
- AudioGate.NothingLostOrReordered: assumes that the client stays connected and accepts writes; `USpeechly.OnSpeechAudio` states what happens otherwise, namely that a refused chunk is gone.
- SpeechlyModel.USpeechly.Tick: needs a client; the source dereferences the client pointer also after a failed Start or Stop has reset it, and that case is not part of this model.
- SpeechlyModel.USpeechly.OnSpeechAudio: runs between calls of the game thread here; interleavings inside Start and Stop are those of `AudioGate`. A chunk that comes between the first two statements of Start is dropped with the old AudioBuffer.
- SpeechlyModel.USpeechly.AudioIsAllThere: another thread than the object's own enqueues no requests on its client.
- SpeechlyClientModel.SpeechlyClient.Run: the main loop is observed for a number of rounds the caller chooses, since it need not end; other threads act between any two steps.
- SpeechlyClientModel.SpeechlyClient.Exit: the drain loop is observed for a number of rounds the caller chooses; the deadline is an outcome of the queue.
- Context cancellation: TryCancel only changes which success bits the queue returns, and those are arbitrary already.
- The network call of WLUSync: the returned segments, or its failure, are a parameter, and the context is assumed to be new.
- Response fields that Tick never reads, such as word indices, entity positions and tentative results.
- The order in which sets and maps are walked when broadcasting: one call for each key is proved, in some order.
- FSpeechRecorder.OnAudioCapture: the overflow flag, which is only logged, and the hand-over to the audio callback are left out.
- The body of CompletionQueue::Shutdown, which is not part of this model: Shutdown is the release of the reservation made at construction.
- Pluck and TryPluck, alarms, and the cancellation methods of CancelInterceptorBatchMethods: they take no part in the passes.
- FailHijackedRecvMessage: a hijacker that lets a receive come back without a message.
- Serialisers, metadata contents and message buffers: core reports a success bit, whether the buffer is valid and whether it deserialises.
- CallbackLifetime.OperationSafeExactlyWhen: what core does with a batch that has no callback tag is outside its contract, and here the batch comes back to nobody; what follows the use of a destroyed object, whose tags are cleared, is left open; so are interceptors of the call, which may delay a post past the setting of the tags, writes marked as the last, and writes after WritesDone.
- Corked initial metadata, WriteOptions, and the reader-only, writer-only, unary and server-side callback classes: they repeat the same count.
