# Verified model of the HTTP helpers

The library is a set of helpers for Go HTTP servers. This project models the six parts of it that carry state machines,
encodings or machine arithmetic, and proves what they are for.

| files | what they model |
|---|---|
| `Text`, `EventStream`, `SseFrame`, `SseWriter`, `SseProtocol`, `SseTheorems`, `SseMerge`, `SseTorn`, `SseTears` | the Server-Sent Events writer: one goroutine's calls, then any number of goroutines, against a parser for the event-stream format written from sections 9.2.5 and 9.2.6 of the WHATWG HTML Living Standard alone |
| `HealthCollect`, `HealthProtocol`, `HealthTheorems`, `HealthFreshness` | the health handler: requests that share one run per checker, waiters, the bounded channel, the collector, the timeout |
| `BodyDecode`, `BodyDecodeTheorems`, `Respond` | decoding a JSON body under a size limit for every way of chunking reads and reading ahead; the two public ways to decode and validate, and the error renderer that joins them |
| `Search` | LIKE escaping, against a LIKE matcher after section 9.7.1 of the PostgreSQL documentation |
| `Recorders`, `RecorderTheorems`, `RecorderLocks`, `StatusWriters`, `InFlight` | the two status recorders at any depth and in any mixture, panic recovery, the in-flight gauge and the request counter |
| `Paging`, `ClientIp`, `Common` | page counts and offsets in machine integers (`Common` has the arithmetic that `BodyDecode` and `Search` need too); the choice of the client's address |

Where the source changes state step by step, the model does too: classes with the source's fields, loops with
invariants, proved against functions on values. The theorems are about those functions and about state machines whose
steps are the source's atomic steps, so they hold for every interleaving. Text is a sequence of Unicode scalar values,
and sizes are UTF-8 bytes; in `BodyDecode` bodies are bytes, and in the recorders one character stands for one byte.

## Where the code does less than it says

Each of these is a theorem that gives the exact condition, or an input for which the property fails.

- `httputil/search.go:26` says the output of `EscapeILIKE` is truncated to `maxLen` runes. The code counts the kept runes
  of the input, so the output can be twice as long (`Search.LimitKeptIff`, `Search.OutputCanDouble`).
- `httputil/search.go:31-39` asks the string builder for room for four bytes a kept rune, up to half the largest int: with a
  huge `maxLen`, such as the largest int meant as "no limit", the builder panics (`Search.RoomIff`, `Search.NoLimitPanics`).
- `httputil/request.go:107` adds one to the limit. With the largest int64 as the limit, the natural way to say "no limit",
  the sum wraps and every body is refused (`BodyDecodeTheorems.LimitHoldsIff`, `WrappedLimitRefusesAll`).
- The outcome of decoding depends on chunking and reading ahead in one case: a body of exactly one byte over the limit
  whose reader reports an error other than `http.MaxBytesError` with its last bytes (`BodyDecodeTheorems.OneOutcomeIff`).
- A value cut off by the limit is reported as invalid JSON, not as too large (`BodyDecodeTheorems.OversizeRefused`).
- `DecodeAndValidate`, and `DecodeAndValidateE` with `HandleError`, answer with the same status, code and fields, but with
  different messages in three cases (`Respond.MessagesAgreeIff`); for one body read twice, they agree exactly outside the
  case above (`Respond.WaysAgreeOnBodiesIff`).
- `httputil/page.go:61` can wrap, and the check for a negative product at `httputil/paginate.go:49` misses wraps that come
  out positive (`Paging.TotalPagesIff`, `Paging.OffsetIsMeantIff`): a page far past the last can start at the first item
  again (`Paging.LaterPagesStartPastIff`, `Paging.LaterPageCanStartOver`).
- `httputil/ip.go:65` reads the first X-Forwarded-For line only, so a line in front of the one that a proxy added decides
  instead of it (`ClientIp.FirstLineIsAllIff`, `ClientIp.LineInFrontDecides`).
- An interim (1xx) `WriteHeader` is taken by the recorders for the final status: they then disagree with the server
  (`RecorderTheorems.LevelsAgreeIff`). So is a code on which the server panics (`RecorderTheorems.OuterLevelsAgreeIff`).
- A panic can go out as an empty 200: when it came from WriteHeader, or when the header was claimed with 200 or an interim
  code and the connection was given no bytes (`RecorderTheorems.PanicIsLostIff`). The byte count outside Recoverer misses
  what a panicking `ReadFrom` source had given (`RecorderTheorems.OuterBytesAgreeIff`).
- `httputil/middleware/writer.go:33-43` holds the mutex during `Write` without a deferred unlock: a panic of the writer
  inside leaves it locked, and Recoverer's deferred function then blocks (`RecorderLocks.RecovererBlocksIff`).
- A health answer "ok" can come from a Check that had ended before the request arrived, because a run is joined until it
  clears `current` (`HealthFreshness.FreshSinceArrivalIff` says exactly when, `HealthFreshness.AnswerCanPredateRequest`
  that it happens); and an "error" can be due to the cancellation of another request, whose context the Check was given
  (`HealthFreshness.OthersCancellationIff`).
- A Check that leaves by `runtime.Goexit` is published as "ok", because the status starts so and only an error or a
  recovered panic changes it (`HealthTheorems.OkMeansPassedIff`; `HealthFreshness.AnswerCanPredateRequest` has a run for
  it).
- After a failed write the SSE writer stays open, so the next event can be misread: `SseTears.AlwaysReadIff` and
  `SseTorn.TornRunIff` say exactly when it is not, and `SseTorn.TornRunExists` that it can be.
- `httputil/sse.go:22` says the 200 is committed on the first successful write; a write that fails has committed it as well
  (`SseWriter.SendOutcome`).
- `httputil/page.go:23` says the page size is clamped to [defaultVal, maxVal]; it is below the default whenever a positive
  value below it is asked for (`Paging.BelowDefaultIff`).

## Model

| member | source | states |
|---|---|---|
| SseTheorems.ClientReceivesLog | httputil/sse.go:80-183 | in every state of every interleaving of Sends, heartbeats and Closes where no failed write left a part of a frame, interpreting all the text written gives exactly the sanitised, newline-normalised events of the completed Sends, in order, and nothing for heartbeats |
| SseTheorems.ClientReceivesPrefix | httputil/sse.go:80-183 | of that text cut at any character, a client has received a beginning of those events and nothing else |
| SseTheorems.EachSendOnce | httputil/sse.go:80-127 | a goroutine that wrote its whole frame, as every Send that returned nil did, has exactly one entry in that order; any other has none |
| SseTheorems.LogInLockOrder | httputil/sse.go:84-127 | that order is the order in which the mutex was taken |
| SseTheorems.RealTimeOrder | httputil/sse.go:80-127 | a frame complete before another call began comes before that call's |
| SseTheorems.HeaderOnceAndFirst | httputil/sse.go:105-108 | over every interleaving the header is committed at most once, with 200, and before any text |
| SseTheorems.CloseSetsDone | httputil/sse.go:142-146 | once a Close has returned the writer is done, in every later state |
| SseTheorems.NothingAfterClose | httputil/sse.go:80-183 | once a Close has returned, no later action of any goroutine changes the header or the text, in spite of the unlocked first look at `done` |
| SseTheorems.OthersCannotTouch | httputil/sse.go:84-85 | while one goroutine holds the mutex no other changes the writer, the mutex, the order or that goroutine |
| SseTheorems.SectionIsCall | httputil/sse.go:80-183 | left to itself, a goroutine's many small actions do to the writer and return what the methods Send, Beat and Close are proved to, whichever writes fail |
| SseTheorems.ScriptIsPutAll | httputil/sse.go:109-126 | one action per Write has the same effect as the method's writes in sequence, which stop at the first failure |
| SseTears.AlwaysReadIff | httputil/sse.go:80-183 | for every run with any number of failed writes, each leaving any part of its frame: at every moment a client has exactly the events of the completed Sends, exactly when no completed frame, and no frame accepted in full whose Send failed, misleads a client that has read what came before |
| SseTears.OneMoreItem | httputil/sse.go:109-126 | one frame, or one part of a frame left behind, after anything that frames and parts of frames can leave: it adds what it should exactly under a condition on the data, name and unfinished line left before it |
| SseMerge.NextFrame | httputil/sse.go:109-126 | exactly when a client in the middle of anything reads the next frame as meant, and exactly when it reads nothing of it |
| SseTorn.TornRunIff | httputil/sse.go:109-126 | for every run in which one failed write leaves a part of a frame, whatever part, before and after: the text is read as the events of the completed Sends exactly when the first frame completed after the tear survives what was left, or none was completed, a condition on the part left and that frame alone; and never when a Send's frame was accepted in full although its last write failed |
| SseTorn.DisconnectIff | httputil/sse.go:109-126 | when nothing more is accepted after the failed write, the client has exactly the events of the completed Sends, unless the write was the last of its frame and accepted in full |
| SseTorn.TornLogIff | httputil/sse.go:115-126 | the same on texts: frames, a part of one cut at any character, and further frames |
| SseTorn.EventLineIff | httputil/sse.go:109-114 | after an event line left alone, the next event is read as intended exactly when it has a name of its own, or the name left is "message" |
| SseTorn.TornRunExists | httputil/sse.go:109-126 | there is a legal run of two Sends in which the second, nameless, returns nil and is read under the name the first left behind |
| SseProtocol.InvKept | httputil/sse.go:80-183 | every atomic step keeps mutual exclusion, the header, the order and the text invariants |
| SseFrame.FrameRoundTrip | httputil/sse.go:89-126 | a client with empty buffers dispatches exactly the intended event for a frame, for every event and data, and ends with empty buffers |
| SseFrame.PartialFrameIsSilent | httputil/sse.go:115-124 | no proper beginning of a frame dispatches anything |
| SseFrame.CrLfThenCr | httputil/sse.go:94-95 | replacing CR LF and then CR turns every CR LF, CR and LF into one newline each |
| SseFrame.NewlinesAreLines | httputil/sse.go:94-96 | the lines of the data as it is written are the lines that the client's own reading makes of the data as it was given, whatever its newlines |
| SseFrame.DeclaredSizeIsWritten | httputil/sse.go:97-102 | the size added up before writing is the number of bytes of the UTF-8 encoding of the frame then written |
| SseFrame.Sanitize | httputil/sse.go:70-77 | same length; exactly the control characters have become spaces |
| SseWriter.SSEWriter.New | httputil/sse.go:51-68 | no writer without a Flusher; otherwise the three headers are set, nothing is committed, and the last limit given counts, 65536 standing for 0 and for none |
| SseWriter.SSEWriter.Send | httputil/sse.go:80-127 | new state and result are those of the specification of Send, for every pattern of failing writes |
| SseWriter.SendOutcome | httputil/sse.go:86-126 | closed and too large leave everything as it was, and the latter is answered exactly when the written frame would exceed a positive limit; success adds exactly one frame and one flush; failure leaves a beginning of it |
| SseWriter.SSEWriter.Close | httputil/sse.go:142-146 | sets done and changes nothing else |
| SseWriter.SSEWriter.Beat | httputil/sse.go:161-177 | a heartbeat commits the header if need be and writes one comment, or nothing when closed |
| SseWriter.SSEWriter.Heartbeat | httputil/sse.go:153-183 | the loop does what its specification function says, of which the next three rows say what it does |
| SseWriter.HeartbeatForEachTick | httputil/sse.go:156-181 | on an open writer, with `k` ticks before the context ends and no failing write, the text grows by exactly `k` times the ping comment, with `k` writes, `k` flushes and one header |
| SseWriter.HeartbeatEndsAtFailure | httputil/sse.go:173-180 | when the write after `k` good ones fails, `k` pings are whole, a beginning of one more is there, and nothing is written or flushed after it |
| SseWriter.HeartbeatOnClosed | httputil/sse.go:161-168 | on a closed writer nothing changes |
| EventStream.ScanTerminated | httputil/sse.go:115-126 | the client reads back as lines the lines that were terminated, whatever follows |
| HealthTheorems.SingleFlight | httputil/health.go:135-169 | over any number of requests a checker has at most one run that is not over, so at most one Check; it is `current` throughout, and the guard at its end is never false |
| HealthTheorems.ResultWrittenOnce | httputil/health.go:157-158 | when `done` is closed the result is the run's own verdict, and it never changes afterwards |
| HealthTheorems.WaiterNeverBlocks | httputil/health.go:171-178 | a waiter that wants to send always finds room, and sends never exceed the channel's capacity |
| HealthTheorems.NothingIsLost | httputil/health.go:124-126 | in every reachable state a pending name has a waiter that will report, or a queued result, or the context is done |
| HealthTheorems.CollectorIsFed | httputil/health.go:182-195 | while the context lives, some action that brings an awaited result nearer is enabled |
| HealthTheorems.CollectorLoopShrinks | httputil/health.go:182-195 | every turn of the collector's loop strictly shrinks the pending set |
| HealthTheorems.AnswerIsHonest | httputil/health.go:115-168 | the answer has exactly the checkers' names; "ok" only for a run whose Check ended without an error and without a panic; "error" only for a nil checker, a failed or panicked check, or an ended context |
| HealthTheorems.OkMeansPassedIff | httputil/health.go:151-168 | an "ok" means that Check returned nil exactly unless it left by runtime.Goexit |
| HealthTheorems.HandedByStart | httputil/health.go:135-149 | the run that decides is the one that was current when this request called start, or the one it launched |
| HealthFreshness.FreshSinceArrivalIff | httputil/health.go:135-164 | an "ok" comes from a Check that ended after the request arrived, exactly unless the request was handed the run that was in flight at its arrival and whose Check had ended by then |
| HealthFreshness.FreshSinceStartIff | httputil/health.go:135-164 | counted from the call of start: exactly if no run was in flight then, or its Check had not ended |
| HealthFreshness.AnswerCanPredateRequest | httputil/health.go:151-168 | for any checker name and any ending that counts as "ok", runtime.Goexit included, there is a run in which a request is answered "ok" by a Check that had ended so before it arrived, and no run does anything after its arrival |
| HealthFreshness.OldAnswer | httputil/health.go:137-141 | this can happen from every state in which the one checker's run has published "ok" and not yet cleared `current` |
| HealthFreshness.OthersCancellationIff | httputil/health.go:147-168 | with checkers that fail exactly when their context has ended, a request that was not cancelled gets "error" for a name exactly when the Check it waited for ended after the cancellation of the request whose call of start launched it in this run, which is another request |
| HealthFreshness.StartIsLauncher | httputil/health.go:142-148 | for ever after, the run that a call of start launches is that request's and that name's |
| HealthTheorems.RunsAreBounded | httputil/health.go:115-197 | from any reachable state only a bounded number of actions can follow before a new request comes |
| HealthTheorems.NothingLeftBehind | httputil/health.go:115-197 | when nothing but a new request is possible, every request is answered, every waiter and run has ended, and no checker holds a run |
| HealthTheorems.DegradedIffSomeNotOk | httputil/health.go:199-206 | the status that decides 200 or 503 is "degraded" exactly when some checker's status is not "ok" |
| HealthProtocol.InvKept | httputil/health.go:115-197 | every atomic step of any request, waiter or run keeps the invariants, and no published result changes |
| HealthProtocol.ClearKept | httputil/health.go:159-163 | the run that ends still is `current`, and clearing it keeps the invariants |
| HealthProtocol.CurrentIsTheField | httputil/health.go:135-163 | launching and ending a run in the protocol do to each checker's `current` what the two methods do |
| HealthCollect.CollectHealthResults | httputil/health.go:180-197 | the maps are those of the collection function; it blocks only with names pending |
| HealthCollect.CollectDecides | httputil/health.go:182-195 | each name is decided on its own, by its first result or by the timeout |
| HealthCollect.FirstDecides | httputil/health.go:182-195 | the first event that concerns a pending name decides it: its result gives its status, the end of the context "error" |
| HealthCollect.HealthStatus | httputil/health.go:199-206 | 503 "degraded" if some status is "error", else 200 "ok" |
| HealthCollect.HealthCheckerState.Start | httputil/health.go:135-149 | hands out the run in flight, or installs a fresh one that the caller launches |
| HealthCollect.HealthCheckerState.Finish | httputil/health.go:151-168 | stores "error" after an error or a panic and "ok" after anything else, closes `done`, and clears `current` only if it is this run |
| BodyDecode.LimitTrackingReader.Read | httputil/request.go:196-214 | delivers the body in order up to the limit; at the end the flag says whether the body reaches the limit; once it is set every Read gives 0 bytes and EOF |
| BodyDecode.HasTrailingJSONData | httputil/request.go:72-89 | true exactly when something but white space follows the value in what can be delivered; ends for every reader |
| BodyDecode.UnmarshalDecode | httputil/request.go:109-119 | for every reading ahead, the decoder's verdict is its verdict on the whole deliverable text |
| BodyDecode.ApplyDecodeOptions | httputil/request.go:56-65 | the last size option counts if it is positive; without one, or otherwise, the size is 1 MiB |
| BodyDecode.DecodeJSONBody | httputil/request.go:52-141 | the outcome, exactly, as a function of the body, how it ends, the limit, and, in one case only, of chunking and reading ahead; and from the options to the outcome, what the caller is promised |
| BodyDecode.DecodeLimited | httputil/request.go:106-141 | the same for any limit, from the limited reader on |
| BodyDecode.OutcomeKeepsPromise | httputil/request.go:100-141 | for every size below the largest int64 and every way of reading: within the size and ending normally, exactly when the body is accepted, has trailing data, or is invalid; ending with an error, never accepted, and "too large" exactly when http.MaxBytesReader cut it off before anything else was wrong; oversize, never accepted, and "too large" when what was read decodes |
| BodyDecodeTheorems.OneOutcomeIff | httputil/request.go:100-141 | any two ways of chunking and reading ahead give the same outcome exactly outside that case, in which reading byte by byte and all at once differ |
| BodyDecodeTheorems.AlwaysExpectedIff | httputil/request.go:100-141 | every way gives the outcome that the body and the limit determine, exactly unless a body in that case is decided before its last byte |
| BodyDecodeTheorems.ReadAheadCanMatter | httputil/request.go:120-131 | the case occurs |
| BodyDecodeTheorems.SuccessIff | httputil/request.go:100-141 | success exactly for bodies that end normally, keep to the size, and are one value followed by white space only, and the result is that value |
| BodyDecodeTheorems.OversizeRefused | httputil/request.go:117-136 | an oversize body is too large when its delivered beginning decodes, with trailing data or not, and invalid JSON otherwise |
| BodyDecodeTheorems.ValueWithinLimit | httputil/request.go:120-136 | a value that ends within the limit makes an oversize body too large, whatever follows |
| BodyDecodeTheorems.LimitHoldsIff | httputil/request.go:107 | the limit is the one asked for exactly when it is below the largest int64 |
| BodyDecodeTheorems.WrappedLimitRefusesAll | httputil/request.go:107 | with the largest int64 every body is refused |
| BodyDecodeTheorems.NumeralIsLawful | httputil/request.go:108-113 | the assumption made of decoders can be met |
| Respond.WaysAgreeOnBodiesIff | httputil/request.go:255-306 | for one body, however each way chunks and reads ahead, one responds exactly when the other returns an error, with the status, code and field errors that HandleError renders, exactly outside the case in which reading ahead matters |
| Respond.MessagesAgreeIff | httputil/error.go:96-136 | the messages agree too except in exactly three cases |
| Respond.ReportedField | httputil/request.go:216-221 | the reported field is the part after the last dot, and the whole path only when that is all or a dot ends it |
| Respond.ItemSays | httputil/request.go:231-251 | the item has that field, and one of three messages, each exactly for its tags |
| Respond.ErrorIsRendered | httputil/error.go:96-136 | the error's own status; its code, or else its status's; its items; and its text exactly unless it is internal or a timeout, which have texts and codes of their own |
| Respond.CodeOfStatus | httperr/http.go:10-37 | the code of each of eleven statuses, and the internal error's code for exactly all others |
| Respond.ValidationErrorsToItems | httputil/request.go:242-251 | one item for each field error, in order |
| Search.SearchFindsContaining | httputil/search.go:27-63 | between two '%' the escaped text matches exactly the texts that contain the literal, for every fold |
| Search.EscapedMatchesLiteral | httputil/search.go:27-63 | alone it matches exactly the literal |
| Search.LikeEscaped | httputil/search.go:45-58 | before any pattern, it matches exactly itself and leaves the rest to that pattern |
| Search.LiteralIff | httputil/search.go:28-61 | the literal is exactly the characters kept of some beginning of the input, at most `maxLen` (100 if not positive), and fewer only at its end: characters that are dropped do not use up the limit |
| Search.EscapeILIKE | httputil/search.go:27-63 | the output is the escaped text of the first `maxLen` (100 if not positive) characters that are not control characters, and there is one exactly when the allocator can give what the hint asks for |
| Search.RoomIff | httputil/search.go:31-39 | the hint, wraps of the machine's int included, is refused exactly when four bytes a character are more than the allocator gives; where half the largest int can be had, never |
| Search.NoLimitPanics | httputil/search.go:31-39 | the largest int as `maxLen` is refused with 48-bit addresses |
| Search.EscapeRoundTrip | httputil/search.go:45-58 | the literal can be read back |
| Search.EscapedIsWellFormed | httputil/search.go:45-58 | the pattern never ends in a lone escape character, alone or before another such pattern |
| Search.LimitKeptIff | httputil/search.go:26-30 | the output keeps to the limit exactly when the literal's length and its escapes together do; it is never more than twice the limit |
| Search.OutputCanDouble | httputil/search.go:26-30 | for every limit there is an input with twice that output |
| Search.ValidateSearchQ | httputil/search.go:14-24 | accepts exactly the queries of at most 100 characters without control characters |
| Search.ValidQueryIsLiteral | httputil/search.go:14-30 | an accepted query is searched for as it stands |
| RecorderTheorems.StackIsOneRecorder | httputil/middleware/writer.go:21-101 | a stack of any kinds and depth does to the server, and records, what a single recorder does |
| RecorderTheorems.LevelsAgreeIff | httputil/middleware/writer.go:21-101 | for any stack and any calls, every level reports the status the server ends with exactly when the first claim of the header is not an interim code; at most one WriteHeader reaches the server |
| RecorderTheorems.FirstCallDecides | httputil/middleware/writer.go:21-101 | the first call decides the status the server ends with and every level reports, whatever follows: a WriteHeader its final code; a Write, a ReadFrom or an effective Flush 200; and which WriteHeader calls reach the server: that one, but none for a ReadFrom under no metrics level |
| RecorderTheorems.BytesAgree | httputil/middleware/writer.go:32-45 | the server sends exactly the bytes of the calls, in order, and every byte count is their number |
| RecorderTheorems.PanicIsAnsweredIffUnclaimed | httputil/middleware/recover.go:15-29 | after a panic of the handler, of a ReadFrom source or in WriteHeader, the server sends the 500 with what it takes of the fixed answer, and nothing else, when nothing had claimed the header; otherwise nothing is added |
| RecorderTheorems.OuterLevelsAgreeIff | httputil/middleware/recover.go:11-33 | recorders outside Recoverer report what is sent, panic or not, under the same condition; after a panic in WriteHeader exactly if its code was 0 |
| RecorderTheorems.OuterBytesAgreeIff | httputil/middleware/recover.go:15-29 | their byte counts are right exactly unless the source of a ReadFrom panicked after giving bytes |
| RecorderTheorems.PanicIsLostIff | httputil/middleware/recover.go:15-29 | a panic goes out as an empty 200 exactly when it came from WriteHeader, or the first claim of the header was 200 or an interim code and the calls gave the connection no bytes |
| RecorderTheorems.NothingCommittedIffSilent | httputil/middleware/recover.go:23-27 | after a panic nothing was ever committed exactly when it came from WriteHeader, or the header was claimed silently and nothing committed afterwards |
| RecorderLocks.RecovererBlocksIff | httputil/middleware/writer.go:32-45 | after a panic of the server's writer, the mutex that Recoverer needs is left locked exactly when the handler was in Write |
| RecorderLocks.HeldAfter | httputil/middleware/writer.go:21-101 | no call leaves a mutex locked but a Write that panics, and a panic in the server's Write leaves those of all logging levels locked |
| StatusWriters.StatusWriter.WriteHeader | httputil/middleware/writer.go:21-30 | the recorder and the chain under it change as the recorder function says: first code recorded and forwarded, later ones dropped |
| StatusWriters.StatusWriter.WriteHeaderIfNeeded | metrics/metrics.go:302-316 | 200 is recorded and forwarded unless a code is recorded |
| StatusWriters.StatusWriter.Write | httputil/middleware/writer.go:32-45 | the implied header, then the bytes taken, which a logging level adds to its count |
| StatusWriters.StatusWriter.ReadFrom | httputil/middleware/writer.go:80-101 | a logging level claims the header without forwarding it, a metrics level forwards it; the pieces passed on are a beginning of the source |
| StatusWriters.StatusWriter.Flush | httputil/middleware/writer.go:62-67 | nothing unless the writer inside can flush; else the implied header, then the flush |
| StatusWriters.StatusWriter.Status | metrics/metrics.go:293-300 | the code recorded, or 200 |
| StatusWriters.StatusWriter.ClaimHeaderSent | httputil/middleware/writer.go:103-111 | true for the first claim only, and nothing else changes |
| StatusWriters.StatusWriter.Recover | httputil/middleware/recover.go:15-29 | the chain changes as the recovery function says, for whatever part of the answer the connection takes |
| StatusWriters.NewLevelIsFresh | httputil/middleware/recover.go:14 | a recorder just made, over an unused server or recorder, is as the theorems take it |
| InFlight.GaugeIsInside | metrics/metrics.go:133-162 | over every interleaving, panics included, the gauge of each method and path is the number of requests that entered with them and have not left, read off the bare list of what happened, whatever the path function answers later |
| InFlight.LabelsAre | metrics/metrics.go:167-189 | nine methods keep their names and all others are "unknown"; an empty path is "/not-found" for a 404 and else "/unknown", as is a missing path function's |
| InFlight.EachRequestCountedOnce | metrics/metrics.go:145-155 | over every interleaving, and for each request by itself: if it enters once, the counter grows at its actions by exactly one, or by nothing when its handler panicked, left no path to report, or its counting is still to come |
| InFlight.CounterIsReturned | metrics/metrics.go:147-155 | for each method, path and status the counter is the number of returns of requests entered with that method, read off the bare list of what happened, less those that have not come to it yet; a counter that does not take the labels stays empty |
| InFlight.OneRequest | metrics/metrics.go:133-162 | one request by itself is on the gauge while it is inside, and afterwards in the counter once, under its method, its path and its status, and off the gauge |
| InFlight.Collectors.AddGauge | metrics/metrics.go:265-273 | adds to one pair of labels, or does nothing and says so |
| InFlight.Collectors.Begin | metrics/metrics.go:136-147 | entry is the machine's entry step |
| InFlight.Collectors.Record | metrics/metrics.go:147-155 | what follows the return of the handler is the machine's counting step |
| InFlight.Collectors.End | metrics/metrics.go:143-145 | the deferred decrement, with the labels of entry, is the machine's leave step |
| Paging.PartitionIffFit | httputil/paginate.go:42-52 | pages 1..TotalPages ask for every item exactly once, none of them for nothing, exactly when the sum does not wrap and the last page's number and offset are ints |
| Paging.AllPagesGiveAllItems | httputil/paginate.go:33-64 | when the sizes fit as above, reading the pages that the first answer reports, one after the other, gives the whole list |
| Paging.FetchPageAsks | httputil/paginate.go:33-64 | the size and offset asked for, which error is answered when one or both callbacks fail, and that the answer repeats the page and size asked for, each at least one, with the data, the total and its pages |
| Paging.NilCallbackIff | httputil/paginate.go:39-41 | an error without any call exactly when a callback is missing |
| Paging.LaterPagesStartPastIff | httputil/paginate.go:48-52 | when TotalPages and its pages' offsets fit, a page after the last starts at or past the total exactly when the total is an int and the high and low part of the page's product meet a condition |
| Paging.LaterPageCanStartOver | httputil/paginate.go:48-52 | sizes that fit, and a later page whose offset is 0 |
| Paging.TotalPagesIff | httputil/page.go:57-66 | TotalPages is the least sufficient number of pages exactly when the sum does not wrap and the count is an int |
| Paging.OffsetIsMeantIff | httputil/paginate.go:48-52 | the offset is the product, saturated, exactly under a condition on the product's high part |
| Paging.OffsetCanWrapToZero | httputil/paginate.go:48-52 | there are a valid page and size whose offset comes out as 0 |
| Paging.ClampedPagesExactIff | httputil/page.go:13-21 | for every page from ClampPage the offset is exact, just when perPage is at most the largest int divided by 9999 |
| Paging.ClampPage | httputil/page.go:13-21 | between 1 and 10000, and the argument itself when it is there and in range |
| Paging.ClampPerPage | httputil/page.go:25-36 | never above the maximum, positive when both bounds are, and the argument itself when in range |
| Paging.BelowDefaultIff | httputil/page.go:25-36 | below the effective default exactly when a positive value below it is asked for |
| Paging.DefaultPerPage | httputil/page.go:25-36 | the effective default when nothing positive is asked for, otherwise what is asked for up to the maximum |
| Paging.NoPagesIff | httputil/page.go:58-60 | no pages exactly for an empty list or a size that is not positive, when the sum does not wrap |
| ClientIp.GetClientIPWithNets | httputil/ip.go:48-78 | the right-to-left scan with its early returns finds the address of the specification |
| ClientIp.IsIPInNets | httputil/ip.go:101-112 | true exactly for an address that some net that is not nil contains |
| ClientIp.RealIpDecides | httputil/ip.go:59-64 | for a trusted peer, when the first entry of the first X-Real-IP line is, blanks aside, a valid untrusted address, that address is the answer, whatever X-Forwarded-For says |
| ClientIp.TrimSpaceIs | httputil/ip.go:60-68 | the blanks taken off an entry are exactly those around a text that neither begins nor ends with one |
| ClientIp.RightmostForwardedWins | httputil/ip.go:65-76 | for a trusted peer, when X-Real-IP does not decide, the answer is the rightmost valid untrusted entry of the first X-Forwarded-For line |
| ClientIp.PrependedTextIsIgnored | httputil/ip.go:65-76 | any text and a comma in front of the first X-Forwarded-For line, in the same line, change nothing when that line decides |
| ClientIp.FirstLineIsAllIff | httputil/ip.go:65-76 | with several X-Forwarded-For lines the answer is the rightmost client over all of them exactly when the later lines decide nothing, or what the first decides |
| ClientIp.LineInFrontDecides | httputil/ip.go:65-76 | of two lines with one untrusted address each, the one in front is the answer |
| ClientIp.AnswerIsPeerOrUntrusted | httputil/ip.go:48-78 | the answer is the peer or a valid untrusted address, and the latter only from a trusted peer |
| ClientIp.HeadersMatterIff | httputil/ip.go:53-76 | no headers whatever change the answer exactly when the peer is untrusted, or no text without a comma names an untrusted address |

## Left out

- Text that is not valid UTF-8: strings are sequences of scalar values.
- `SendJSON`, and JSON encoding and decoding in general; a decoder is any function that settles on a prefix, settles at the latest at the end, and then stands by it (`BodyDecode.Lawful`).
- Tickers, deadlines and scheduling: a tick, a timeout and a cancellation are steps that can come at any time.
- What a Check does with its context, which is the one of the request that launched the run: a verdict is arbitrary, but in `HealthFreshness.OthersCancellationIff`.
- The health response's body, its options and its fallback when encoding fails.
- The nil writer and nil request branches of `DecodeAndValidate` and `HandleError`, a `ValidationHTTPError` without inner error, `ErrorHandler.Handle`, `DecodeJSON`, and the decoded value that is returned beside an error.
- The text of decoding and validation errors: no response shows it.
- BodyDecode.UnmarshalDecode: models the library's decoder at its interface, with the read-ahead as an argument; its own parsing is abstract.
- `Hijack` and `Unwrap`; concurrent calls on one recorder; what is sent when the server's Write panics, beyond the mutexes it leaves locked; headers other than the status, such as the Content-Type that Recoverer sets.
- Prometheus registration, the duration histogram and the log warnings of the metrics middleware.
- Running out of memory for the room that `EscapeILIKE` asks for and the allocator's bound allows; `SanitizeSearchQ`, which only calls it.
- `ParseTrustedProxyCIDRs`, `GetClientIPE`, the split of the peer's address from its port, and a nil request; which texts are addresses and which nets contain them are parameters.
- `ClampLimit`, `ParseIntQuery` and `NewPaginationMeta`, and the contexts that FetchPage passes on.
- Query and path parameters, download and multipart rendering, localization, security headers, request IDs, RequireJSON, context timeouts and logging: configuration, filters with one branch, or thin wrappers.
