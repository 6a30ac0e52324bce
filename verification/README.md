# Verified models of the platform's hard parts

A Dafny model of the self-contained state machines and transformations of the repository, with
proofs about them:

- **Event streams.** A topic hub with bounded channels feeds a serializer; a Go pull reader and the
  browser's incremental chunk parser read the text. `Text`, `SseFormat`, `SseWriter`, `TsStream` and
  `GoReader` model the code, `SseAgreement` compares the two parsers, `SseRoundTrip` says what both
  make of any prefix of a written stream, `SseReadBack` which events come back at all, `Hub` and
  `HubSteps` are the hub as a class and as interleaved steps, `HubProgress` says what these steps bring
  about and can still bring about, and `EndToEnd` goes from `Publish` to the readers.
- **The runner.** `Queue` is the task queue over a Redis stream with one consumer group; `Pool` is the
  worker pool of any number of nodes, every statement that another goroutine can observe being a
  step; `Runner` has what holds over every interleaving, `Fates` which step gives an entry its fate and
  what a pool can still do, and `BeginOrder` when tasks begin in order.
- **The distributed lock.** `Locks` is the timed key store with its handles, over runs with clock
  ticks; `LockRetry` is the contention loop.
- **The workflow engine and the planner.** `Workflow` is a graph interpreter whose handlers are an
  oracle; `Planner` is the dependency scheduler.
- **Retrieval.** `Chunker` cuts documents, `Embedding` is the cache in front of the provider, and
  `Ingest` puts both together with the vector store.
- **The agent loop and the client's retry loop.** `Agent` and `Retry`.

Loops and objects that the code updates in place are methods and classes here, proved against
specification functions; the lemmas are about those functions, or about runs of a step relation where
goroutines interleave. What the code takes from outside (provider answers, generated IDs, clocks,
random numbers, faults) are parameters, so every statement holds for all of them.

Some results are negative, and then the exact condition is proved:

- The two stream parsers disagree on a line of carriage returns only, which ends an event for Go and is
  ignored by the browser, and on a value that one trim shortens and the other does not, as Go's trims
  U+0085 and JavaScript's U+FEFF. A line has the same effect in both exactly when it is neither; and
  every text made of the lines of a set, a plain data line and the blank line among them, is read alike
  if and only if each line of the set is neither.
- `Ack` passes a task ID where Redis expects a stream ID, and `Nack` does nothing: a delivered entry leaves
  the pending list if and only if a task acknowledged after its delivery happens to have its stream ID as
  its own ID. The architecture document promises retry and a dead-letter queue; the code delivers each
  task at most once.
- Tasks are delivered in enqueue order, but may begin in another: in every run of some pools they begin in
  order if and only if the pools are configured with at most one worker between them.
- A lock whose acquisition loses its reply is an error for the caller and taken for everyone until its
  deadline, for ever when it has none.
- A completed event stream gives its events back if and only if each is clean: values on one line that the
  reader does not trim, no type "done", no empty or `[DONE]` data.
- `Decompose` copies dependency titles while `NextTask` looks up IDs: a decomposed plan is finished by
  taking the next task if and only if none of its tasks has a dependency.
- A plan can be stuck only through chains of pending tasks; depending on a failed task through a
  completed one blocks nothing.
- Ingesting a shorter version of a document leaves the rows of the chunks it lost in the index: after any
  history of ingests there is no stale row if and only if there was none at the start and the last version
  has at least as many chunks as every earlier one.
- The embedding cache is invisible if and only if texts with equal digests have equal embeddings.
- The client's backoff wraps int64 and the random source panics: the client never panics if and only if it
  does not retry, or its base wait is at least 4 ns and doubled for the last retry still an int64. With the
  shipped 500 ms that is up to 35 retries.
- The workflow engine need not end. It ends on every run of a definition, however the handlers answer, if
  and only if no walk from the entry along followed edges through nodes with handlers is longer than
  there are nodes.

Where the stream format differs from sections 9.2.5 and 9.2.6 of the WHATWG HTML Living Standard (a
second `data:` line overwrites the first, `id` is reset by each event, values are trimmed on both
sides), the models do what the code does.

## Model

| member | source | states |
|---|---|---|
| `TsStream.StreamSSE` | apps/bzy-ui/src/api/client.ts:105-141 | However the text is cut into chunks, the loop yields one event for each of the whole text, with its data, its type or "message", and its id if there is one, stops at the first chunk that completes the done marker, and is left with the same pending fields and buffer |
| `TsStream.AfterIsRun` | apps/bzy-ui/src/api/client.ts:113-119 | Feeding chunks one after the other leads to the state that feeding their concatenation at once does |
| `TsStream.TsLinesIsRun` | apps/bzy-ui/src/api/client.ts:118-139 | Splitting the buffer and going through its lines is the character-by-character reading of the text |
| `TsStream.TsRunMonotone` | apps/bzy-ui/src/api/client.ts:132-134 | More text never takes back a yielded event |
| `TsStream.DoneFrom` | apps/bzy-ui/src/api/client.ts:128-131 | Exactly the prefixes from the chunk that completes the done marker on are done, and nothing after it changes the state |
| `GoReader.SseReader.Next` | pkg/client/sse.go:34-66 | One call returns the first event, end or failure of the unread text, including the dispatch of pending data when the text ends right after a newline, and consumes exactly what precedes it |
| `GoReader.GoNextsIsAll` | pkg/client/sse.go:34-66 | Calling `Next` until the end gives the events of the line-by-line reading of the whole body |
| `GoReader.SseReader.Iter` | pkg/client/sse.go:79-98 | The callback gets the events in order, the reader is closed on every way out |
| `GoReader.IteratedUntil` | pkg/client/sse.go:79-98 | What the callback gets: the events up to the first of cancellation and its own failure, otherwise all of them, and which outcome that is |
| `SseAgreement.Agreement` | pkg/client/sse.go:34-66 | On every compatible text, whose lines all qualify in the sense of `SameEffectIff`, the Go reader yields the browser's events, plus exactly the pending event when no done marker came and the stream ends right after a newline with dispatchable data |
| `SseAgreement.PlainIsCompatible` | pkg/client/sse.go:38-50 | A stream without carriage returns and without the two characters that only one trim removes is compatible |
| `Text.WhiteSpaceIs` | pkg/client/sse.go:44-50 | Which characters the two trims remove: 24 in both languages, U+0085 in Go only, U+FEFF in the browser only |
| `SseAgreement.SameEffectIff` | pkg/client/sse.go:38-50 | A line has the same effect on every pending state in both parsers if and only if it is not carriage returns only and the value of the field it has trims alike |
| `SseAgreement.AgreementIff` | pkg/client/sse.go:34-66 | The parsers agree on every text made of the lines of a set that holds a plain data line and the blank line if and only if each line of the set qualifies |
| `SseAgreement.CarriageReturnDisagrees` | pkg/client/sse.go:38-59 | On `data:x`, a carriage return, `data:x` and a blank line Go yields two events and the browser one |
| `SseAgreement.ContestedDisagrees` | pkg/client/sse.go:44-50 | On a text with a value that ends in U+0085 or U+FEFF the parsers disagree |
| `SseWriter.WriteSSEEvent` | apps/bzy-interface/internal/streaming/streaming.go:113-126 | An event is written as its optional type and id lines, its data line and a blank line (`EventOnTheWire`); when the data does not marshal, the first two have gone out already |
| `SseWriter.ServeSSE` | apps/bzy-interface/internal/streaming/streaming.go:84-111 | The body is the events taken, in order, and the ending: nothing when cancelled, at the round of the cancellation and not later, the done marker when the channel was closed and drained, a partial event when marshalling failed, and never another than these demand |
| `SseRoundTrip.GoFieldLineRead` | apps/bzy-interface/internal/streaming/streaming.go:114-124 | The Go reader gets back the value of a printed field line if it is on one line with nothing for Go to trim |
| `SseRoundTrip.TsFieldLineRead` | apps/bzy-interface/internal/streaming/streaming.go:114-124 | The browser does if there is nothing for it to trim |
| `SseRoundTrip.GoRoundTrip` | apps/bzy-interface/internal/streaming/streaming.go:99-126 | From a completed stream of clean events the Go reader gets exactly those events and ends cleanly, whatever follows the done marker |
| `SseRoundTrip.TsRoundTrip` | apps/bzy-interface/internal/streaming/streaming.go:99-126 | So does the browser |
| `SseReadBack.GoReadsBackIff` | apps/bzy-interface/internal/streaming/streaming.go:99-126 | From a completed stream of any marshalled events the Go reader gives back exactly these and ends cleanly if and only if every value is on one line with nothing for Go to trim, no type is "done" and no data empty or `[DONE]` |
| `SseReadBack.TsReadsBackIff` | apps/bzy-interface/internal/streaming/streaming.go:99-126 | The same for the browser and its trim |
| `SseReadBack.GoYields` | pkg/client/sse.go:34-66 | From any lines the Go reader yields only events with one-line, trimmed values that are no done marker and have data |
| `SseReadBack.TsYields` | apps/bzy-ui/src/api/client.ts:118-139 | So does the browser |
| `SseRoundTrip.GoCutStream` | apps/bzy-interface/internal/streaming/streaming.go:84-126 | From any prefix of any stream of clean events the Go reader gets exactly the events complete in it, where at a clean end the last newline may be missing, and reports a broken connection exactly when it had not read the closing marker |
| `SseRoundTrip.TsCutStream` | apps/bzy-interface/internal/streaming/streaming.go:84-126 | From any prefix of any stream of clean events the browser gets a prefix of the written events |
| `Hub.Hub.Subscribe` | apps/bzy-interface/internal/streaming/streaming.go:43-53 | A new empty open channel is registered; a client that subscribes again replaces its entry, and the old channel stays open |
| `Hub.Hub.Unsubscribe` | apps/bzy-interface/internal/streaming/streaming.go:56-66 | The registered channel is open, is closed and removed; without a registration nothing happens |
| `Hub.Hub.Publish` | apps/bzy-interface/internal/streaming/streaming.go:69-80 | Every channel of the topic is offered the event exactly once whatever order the map yields, no other channel changes, and no send meets a closed channel |
| `HubSteps.StepKeeps` | apps/bzy-interface/internal/streaming/streaming.go:43-111 | Every step of subscribers, publishers and handlers keeps the hub's invariant, `Publish` being one step per send under the read lock |
| `HubSteps.SendIsSafe` | apps/bzy-interface/internal/streaming/streaming.go:73-78 | A send that may happen finds its channel open |
| `HubSteps.HubSafety` | apps/bzy-interface/internal/streaming/streaming.go:43-80 | In every state of every run nothing has panicked (no send on a closed channel, no second close), no buffer holds more than 32 events, and a publisher's targets are still the registrations |
| `HubSteps.HubDelivery` | apps/bzy-interface/internal/streaming/streaming.go:69-80 | A finished publication was offered to exactly the channels registered when it began; one of them missed it only with a full buffer at that send; what was taken is what was received and what waits, each publisher's events in order |
| `HubSteps.AcceptedInOrder` | apps/bzy-interface/internal/streaming/streaming.go:73-78 | Dropping events keeps the order of each publisher's others |
| `HubProgress.SubscribeOpens` | apps/bzy-interface/internal/streaming/streaming.go:43-53 | In every state of every run in which nobody publishes, subscribing adds an open empty channel, registers it in place of the client's earlier one, and changes nothing else |
| `HubProgress.UnsubscribeCloses` | apps/bzy-interface/internal/streaming/streaming.go:56-66 | In every such state unsubscribing closes the registered channel with what it holds and removes the client; no other subscription changes |
| `HubProgress.PublicationCompletes` | apps/bzy-interface/internal/streaming/streaming.go:69-80 | When nobody publishes, a publication can be run to its end: exactly the channels registered under the topic are offered the event, each takes it unless it holds 32, and nothing else changes |
| `HubProgress.CancelledWritesNothing` | apps/bzy-interface/internal/streaming/streaming.go:94-97 | Once its context is done a handler never receives or writes again |
| `HubProgress.UnsubscribedStreamFinishes` | apps/bzy-interface/internal/streaming/streaming.go:56-111 | When nobody publishes, a client that unsubscribes can have its stream completed: the handler writes all accepted events in order and the done marker |
| `EndToEnd.GoEndToEnd` | apps/bzy-interface/internal/streaming/streaming.go:43-126 | In every state of every run, whatever part of the wire arrived, the Go reader has yielded a prefix of the events accepted into the channel; from a finished wire all of them and a clean end, and from any other a broken connection is reported |
| `EndToEnd.TsEndToEnd` | apps/bzy-interface/internal/streaming/streaming.go:43-126 | The same for the browser, whatever chunks the part that arrived comes in, to the data, types and ids its caller gets |
| `EndToEnd.StreamCompletes` | apps/bzy-interface/internal/streaming/streaming.go:43-126 | When nobody publishes, a client's stream can be brought to an end from which both readers get exactly all accepted events, if these are clean for them |
| `Queue.RedisQueue.Enqueue` | apps/bzy-runner/internal/queue/queue.go:98-118 | The task gets its ID, time and status and one entry at the end of the log; on a marshalling error or a request that does not arrive the log is unchanged, and a lost reply is an error with the entry appended |
| `Queue.RedisQueue.Dequeue` | apps/bzy-runner/internal/queue/queue.go:120-154 | The entry at the group's cursor is delivered once, also when the caller only gets an error for it |
| `Pool.NodesKeep` | apps/bzy-runner/internal/worker/worker.go:54-139 | Every step keeps every pool's invariant: the wait group counts the live workers and the one being spawned, a drained pool has no worker fetching, holding or processing, and a worker that began a task after `quit` closed neither fetches nor holds one again |
| `Runner.StepKeeps` | apps/bzy-runner/internal/worker/worker.go:54-139 | Every step of producers, workers, `Start` and `Shutdown` keeps the invariants of queue and pools |
| `Runner.TaskConservation` | apps/bzy-runner/internal/worker/worker.go:63-121 | Over every run of any number of nodes, entries are delivered in enqueue order, each delivered entry has exactly one fate (held, being processed, acked, nacked, undecodable, lost with the reply), no two workers have the same entry, and a task begins at most once, at the worker it was delivered to, and has begun exactly when it is being processed, acked or nacked |
| `Fates.CompletionFates` | apps/bzy-runner/internal/worker/worker.go:108-121 | A completion acks its entry, with that task's ID if the request arrives, when the handler succeeded, and otherwise nacks it and leaves Redis alone |
| `Fates.FateStemsFromStep` | apps/bzy-runner/internal/worker/worker.go:77-121 | Over every run an entry is acked exactly when a worker completed it with success, nacked when without, undecodable when its worker rejected it, lost when the reply with it was |
| `Fates.AcksStemFromSuccess` | apps/bzy-runner/internal/worker/worker.go:112-121 | Over every run Redis got an acknowledgement exactly from the successful completions whose request arrived, each with its own task's ID |
| `Fates.NextTaskCanBeDone` | apps/bzy-runner/internal/worker/worker.go:67-121 | A worker at the select of a pool that is not stopping can take the next entry to its end, acked or nacked as its handler decides |
| `BeginOrder.BeginsInOrderIff` | apps/bzy-runner/internal/worker/worker.go:54-88 | In every run of any pools started anew tasks begin in delivery order if and only if the pools are configured with at most one worker between them |
| `BeginOrder.BeginsOutOfOrder` | apps/bzy-runner/internal/worker/worker.go:77-88 | With two workers, on one node or two, any two tasks have a run in which they begin in the other order |
| `Runner.PendingIff` | apps/bzy-runner/internal/queue/queue.go:156-165 | Over every run a delivered entry is off the pending list if and only if some acked task, acknowledged after the entry's delivery, has the entry's stream ID as its own task ID |
| `Runner.AckClearsNothing` | apps/bzy-runner/internal/queue/queue.go:156-165 | While no task ID coincides with a stream ID, the pending list is exactly the entries ever delivered |
| `Runner.GracefulShutdown` | apps/bzy-runner/internal/worker/worker.go:124-139 | Once `Shutdown` has returned nil no worker of the pool is fetching, holding or processing a task and none ever begins, even when it overlapped `Start` |
| `Runner.FewLateTasks` | apps/bzy-runner/internal/worker/worker.go:67-87 | From any state in which `quit` is closed at most `concurrency` further tasks begin on the pool |
| `Fates.StoppedFetchesNoMore` | apps/bzy-runner/internal/worker/worker.go:67-76 | After `quit` closed or the context was cancelled no worker of the pool goes for another task |
| `Fates.ShutdownCanComplete` | apps/bzy-runner/internal/worker/worker.go:63-139 | From any state of any run in which `Shutdown` waits, when the handlers return, every worker can finish what it has and exit, and `Shutdown` return nil |
| `Fates.StartReturnsLast` | apps/bzy-runner/internal/worker/worker.go:54-61 | `Start` has returned only when every worker of the pool has exited, and then for good |
| `Locks.RedisLocker.AcquireLock` | apps/bzy-runner/internal/locks/locks.go:67-79 | When the request arrives the token is stored with its deadline exactly when no live entry is; the caller gets the lock exactly when the reply arrives too, and an error otherwise |
| `Locks.RedisLocker.ReleaseLock` | apps/bzy-runner/internal/locks/locks.go:33-43 | When the script runs, the entry is deleted exactly when it is live and holds this handle's token; nothing else changes |
| `Locks.ReleaseFrees` | apps/bzy-runner/internal/locks/locks.go:33-43 | Over every run a release through the handle that holds the key leaves the key free, everything else as it was, and that handle without the key for good, and the next to acquire the key gets it; through any other handle it changes nothing |
| `Locks.RedisLocker.ExtendLock` | apps/bzy-runner/internal/locks/locks.go:46-55 | When the script runs, the deadline moves exactly when the entry is live and holds this handle's token; nothing else changes |
| `Locks.ExtensionMoves` | apps/bzy-runner/internal/locks/locks.go:46-55 | Over every run an extension through the holder moves only its own deadline, or frees the key when the time to live is not positive; through any other handle it changes nothing |
| `Locks.ExpiryFrees` | apps/bzy-runner/internal/locks/locks.go:67-79 | Over every run time alone ends a lock exactly at its deadline, and then anybody can acquire the key |
| `Locks.AcquisitionStores` | apps/bzy-runner/internal/locks/locks.go:67-79 | Over every run an acquisition takes the key exactly when it is free and the request arrives with a time to live that is not negative, and hands it to the caller exactly when the reply arrives too |
| `Locks.LockCycle` | apps/bzy-runner/internal/locks/locks.go:33-79 | A lock can be acquired, extended past its first deadline, released, and acquired by somebody else |
| `Locks.NeverAgain` | apps/bzy-runner/internal/locks/locks.go:33-79 | A handle that was released, expired or taken over never owns its key again |
| `Locks.OwnershipIsAnInterval` | apps/bzy-runner/internal/locks/locks.go:33-79 | Over every timed run the times at which a handle owns its key are one interval in which no other handle owns it |
| `Locks.TakeoverIsFinal` | apps/bzy-runner/internal/locks/locks.go:67-79 | Once another handle owns the key, the former owner never does again |
| `Locks.OwnedUntilDeadline` | apps/bzy-runner/internal/locks/locks.go:33-79 | While its own handle does not release or extend it, a lock is owned exactly until its deadline, whatever the others do |
| `Locks.OrphanBlocksUntilDeadline` | apps/bzy-runner/internal/locks/locks.go:67-79 | Over every run a lock whose reply was lost stays in nobody's hands and keeps everybody from acquiring its key exactly until its deadline |
| `Locks.Granted` | apps/bzy-runner/internal/locks/locks.go:46-79 | Acquiring a free key and extending an owned one give ownership until `ttl` from now |
| `LockRetry.TryAcquire` | apps/bzy-runner/internal/locks/locks.go:81-103 | Attempts continue only after contention; each outcome is the last attempt's; every attempt starts before the deadline, calls, pauses and oversleeping counted, and the loop times out exactly when the next one would not; for a timeout above 750 ms there are at most 4 + ceil((timeout - 750 ms) / 800 ms) attempts, and exactly that many when, with exact pauses and no call time, the loop times out, which it does before the timeout plus 800 ms |
| `Workflow.ExecuteDAG` | apps/bzy-brain/internal/workflows/workflow.go:168-215 | On every definition and handlers with which the run ends, the loop ends too and leaves the node states, status, output, error and number of handler calls of that execution |
| `Workflow.Execute` | apps/bzy-brain/internal/workflows/workflow.go:142-166 | An unknown definition is an error; otherwise the caller gets a new run that is Running and has no node states yet |
| `Workflow.Finish` | apps/bzy-brain/internal/workflows/workflow.go:159-163 | The goroutine leaves the run Completed with the execution's output or Failed with its error, and its node states; when the last handler failed at a node without `OnError` the run is Failed with its message |
| `Workflow.InterpretIsExecution` | apps/bzy-brain/internal/workflows/workflow.go:172-208 | The recursive interpreter's visits satisfy the declarative reading: each at the position the earlier ones lead to, on the latest successful output |
| `Workflow.ExecutionIsUnique` | apps/bzy-brain/internal/workflows/workflow.go:172-208 | That reading allows one execution |
| `Workflow.ExecutionFollowsEdges` | apps/bzy-brain/internal/workflows/workflow.go:168-215 | An execution is exactly a run that goes from the entry along `Next[0]` with each output and along a non-empty `OnError` with the payload that failed, until no edge is left or it leads to no handler: a failure without `OnError` ends it with that error |
| `Workflow.NoRevisit` | apps/bzy-brain/internal/workflows/workflow.go:172-208 | When every walk the engine can be led on is at most as long as there are nodes, no run visits a node twice, so there are at most as many calls as nodes |
| `Workflow.EveryRun` | apps/bzy-brain/internal/workflows/workflow.go:168-215 | All three for every run of such a definition, however the handlers answer |
| `Workflow.EveryRunEndsIff` | apps/bzy-brain/internal/workflows/workflow.go:172-208 | Every run of a definition ends, for all handlers and inputs, if and only if no walk from the entry along `Next[0]` and `OnError` edges through nodes with handlers is longer than there are nodes |
| `Workflow.RankedWalksAreShort` | apps/bzy-brain/internal/workflows/workflow.go:172-208 | A rank that falls on every followed edge is enough for that |
| `Workflow.SelfLoopRunsForEver` | apps/bzy-brain/internal/workflows/workflow.go:172-208 | A node that is its own successor has a run that never ends |
| `Workflow.UnreachedLoopIsHarmless` | apps/bzy-brain/internal/workflows/workflow.go:172-208 | A loop that no run reaches keeps no run from ending |
| `Workflow.CompletedRun` | apps/bzy-brain/internal/workflows/workflow.go:178-213 | On completion, with loops or without, the output is the latest successful output, and the node states are those of exactly the visited nodes, each Completed or Failed, with the latest output before the node's last visit as input |
| `Workflow.NodeStatesOfRun` | apps/bzy-brain/internal/workflows/workflow.go:178-208 | After any run there are states of exactly the nodes entered: Completed with the output or Failed with the message of the last call, Running where there was no handler |
| `Workflow.EndlessRun` | apps/bzy-brain/internal/workflows/workflow.go:172-208 | With an endless walk along followed edges the handlers that keep to it leave no execution that ends |
| `Planner.NextTask` | apps/bzy-brain/internal/planning/planning.go:156-180 | The first pending task in list order whose dependencies are all completed, or none if there is none |
| `Planner.StuckIff` | apps/bzy-brain/internal/planning/planning.go:156-180 | With distinct IDs and acyclic dependencies inside the plan, `NextTask` finds nothing if and only if every pending task depends, through pending tasks, on one neither pending nor completed |
| `Planner.CompletedBreaksTheWalk` | apps/bzy-brain/internal/planning/planning.go:157-172 | Depending on a failed task through a completed one does not block |
| `Planner.Progress` | apps/bzy-brain/internal/planning/planning.go:156-180 | Taking and completing the next task finishes an acyclic closed plan in exactly as many rounds as tasks were pending, each task after all it depends on |
| `Planner.Decompose` | apps/bzy-brain/internal/planning/planning.go:134-148 | Each proposed task becomes one pending task under its generated ID with its dependencies as they are, titles; if none of these is a generated ID, the plan can be finished exactly when nothing was proposed with a dependency |
| `Planner.OnlyFreeTasksRun` | apps/bzy-brain/internal/planning/planning.go:142-172 | When no dependency is an ID, exactly the pending tasks without dependencies are ever taken |
| `Planner.DecomposedPlanFinishesIff` | apps/bzy-brain/internal/planning/planning.go:134-172 | A decomposed plan is finished if and only if no task has a dependency |
| `Chunker.ChunkText` | apps/bzy-brain/internal/rag/rag.go:200-211 | The loop returns the kept paragraphs; every chunk is non-empty, trimmed and free of blank-line separators, and they hold the text's non-whitespace characters in order |
| `Chunker.ParagraphsCut` | apps/bzy-brain/internal/rag/rag.go:202 | Splitting loses nothing and cuts at the leftmost separators |
| `Chunker.ParagraphsOfJoin` | apps/bzy-brain/internal/rag/rag.go:202 | There is only one such cut: splitting a leftmost-cut list joined again returns it |
| `Chunker.ChunksAreChunks` | apps/bzy-brain/internal/rag/rag.go:204-209 | Every chunk of every text is non-empty, trimmed and free of separators |
| `Chunker.ChunksAreParagraphs` | apps/bzy-brain/internal/rag/rag.go:202-209 | The chunks are the trimmed paragraphs in their order, without exactly the blank ones |
| `Chunker.ChunksOfJoin` | apps/bzy-brain/internal/rag/rag.go:200-211 | Chunking any list of such chunks, joined by blank lines, returns the list |
| `Chunker.RechunkingReturnsTheChunks` | apps/bzy-brain/internal/rag/rag.go:200-211 | Chunking the joined chunks of any text returns the same chunks |
| `Chunker.NothingVisibleIsLost` | apps/bzy-brain/internal/rag/rag.go:200-211 | The chunks hold exactly the text's non-whitespace characters, in order |
| `Embedding.Service.Embed` | apps/bzy-brain/internal/embedding/embedding.go:33-61 | Result, new cache and the batch sent to the provider for any pattern of hits, lost reads, duplicates, failed writes and provider failure; on failure the cache is as before, and with nothing missing the provider is not asked |
| `Embedding.Service.Look` | apps/bzy-brain/internal/embedding/embedding.go:34-45 | The first loop puts the cached vectors in place and collects the missing positions and texts |
| `Embedding.Service.Fill` | apps/bzy-brain/internal/embedding/embedding.go:56-60 | The second loop puts each new vector at its position and under its text's key |
| `Embedding.Call.MissingIsExact` | apps/bzy-brain/internal/embedding/embedding.go:38-45 | The missing positions are exactly those without a hit, each once, in order |
| `Embedding.Call.MissingTextsAreThere` | apps/bzy-brain/internal/embedding/embedding.go:41-51 | The batch sent to the provider is the texts at those positions, in order |
| `Embedding.Call.AnswersAreTheProviders` | apps/bzy-brain/internal/embedding/embedding.go:33-61 | With a correct cache a call that succeeds returns at every position what the provider alone would |
| `Embedding.Call.CacheStaysCorrect` | apps/bzy-brain/internal/embedding/embedding.go:56-59 | Every call keeps every cache entry correct, as long as digest collisions are harmless |
| `Embedding.Call.SecondCallIsFree` | apps/bzy-brain/internal/embedding/embedding.go:38-49 | After a call whose writes succeeded, a call for the same texts that loses no read asks the provider for nothing |
| `Embedding.Call.CacheHoldsIff` | apps/bzy-brain/internal/embedding/embedding.go:38-59 | A call adds to the cache an entry for exactly the texts that missed and whose write went through, and none when it fails |
| `Embedding.Call.OutageShowsIff` | apps/bzy-brain/internal/embedding/embedding.go:38-54 | With the provider down a call succeeds, without asking it, exactly when the cache answers every position |
| `Embedding.Model.KeysAreDigests` | apps/bzy-brain/internal/embedding/embedding.go:74-77 | Two texts share a cache entry exactly when they share their digest |
| `Embedding.HistoryIsTransparent` | apps/bzy-brain/internal/embedding/embedding.go:33-61 | Over every history of calls the cache is invisible and stays correct |
| `Embedding.CacheIsTransparentIff` | apps/bzy-brain/internal/embedding/embedding.go:74-77 | Every history over a set of texts is answered as by the provider alone if and only if texts of the set with equal digests have equal embeddings |
| `Ingest.KeyIsInjective` | apps/bzy-brain/internal/rag/rag.go:117 | The printed key is injective in document ID and index, whatever the IDs contain |
| `Ingest.KeyIsPrinted` | apps/bzy-brain/internal/rag/rag.go:117 | The key is the ID, "-chunk-" and the decimal digits of the index without leading zeros |
| `Ingest.PgVector.UpsertBatch` | apps/bzy-brain/internal/vectorstore/pgvector.go:58-85 | All vectors are upserted or, when any statement or the commit fails, none |
| `Ingest.UpsertsStore` | apps/bzy-brain/internal/vectorstore/pgvector.go:64-83 | A vector whose ID no other in the batch has is stored, in the old row's collection if there was one |
| `Ingest.UpsertsKeep` | apps/bzy-brain/internal/vectorstore/pgvector.go:64-83 | A row whose ID no vector of the batch has is unchanged |
| `Ingest.Pipeline.Ingest` | apps/bzy-brain/internal/rag/rag.go:98-130 | On success, whatever the cache holds, every chunk is stored under "ID-chunk-i" with its metadata and the vector the embedder answered, and every other row is unchanged; with a correct cache the vectors are the provider's; on failure the store is unchanged; it succeeds exactly when neither embedder nor store fails; an empty ID is replaced |
| `Ingest.Version.StoringVectors` | apps/bzy-brain/internal/rag/rag.go:114-129 | Upserting the vectors of a document's chunks gives a store with a row for each index and every other row unchanged |
| `Ingest.Version.CorrectCacheIngests` | apps/bzy-brain/internal/rag/rag.go:98-129 | With a correct cache the embeddings stored are the provider's |
| `Ingest.Version.OtherDocumentsAreUntouched` | apps/bzy-brain/internal/rag/rag.go:117-129 | Ingesting one document never alters another's rows |
| `Ingest.Version.StoredTextIsTheDocuments` | apps/bzy-brain/internal/rag/rag.go:98-130 | The stored rows hold the document's non-whitespace characters in order |
| `Ingest.StaleRowsStay` | apps/bzy-brain/internal/rag/rag.go:114-129 | After an ingest there are rows past the last chunk if and only if there were before |
| `Ingest.ReingestLeavesNoStaleRowsIff` | apps/bzy-brain/internal/rag/rag.go:114-129 | After any history of ingests of any documents, from any table, the last ingested one has no row past its last chunk if and only if it had none at the start and no earlier version of it had more chunks |
| `Agent.LiveAgent.Run` | apps/bzy-brain/internal/agents/agent.go:179-233 | Messages, step count and result are those of the specified run for any provider and tools; the status is Finished exactly for an answer and Failed otherwise |
| `Agent.LiveAgent.Process` | apps/bzy-brain/internal/agents/agent.go:221-228 | One tool message per call, in order, with the call's ID and the tool's observation |
| `Agent.LiveAgent.ExecuteTool` | apps/bzy-brain/internal/agents/agent.go:235-246 | The observation of the first tool of that name, as specified |
| `Agent.FirstToolRuns` | apps/bzy-brain/internal/agents/agent.go:235-246 | Only the first tool of a name runs, an error is prefixed, and a name without a tool says so |
| `Agent.EveryRun` | apps/bzy-brain/internal/agents/agent.go:183-233 | For any assistant and tools: at most the effective limit of requests, each a transcript without open calls that begins the final one; the final one records exactly the provider's messages and leaves calls open only when it ends on a final message that still has some |
| `Agent.EveryTurn` | apps/bzy-brain/internal/agents/agent.go:183-246 | Every turn of every run: the first request is the system prompt and the input; a response that says "stop" or calls no tool is the answer and the last; any other is followed by one tool message per call, each showing what the first tool of that name returned, and by the next request, up to 10 or the configured limit |
| `Agent.RequestsAreComplete` | apps/bzy-brain/internal/agents/agent.go:194-229 | Every request answers every call made before it, with matching IDs in order |
| `Agent.FinalTranscript` | apps/bzy-brain/internal/agents/agent.go:205-232 | Which calls the final transcript leaves open, and that the answer is its last message's content |
| `Agent.StepsAreBounded` | apps/bzy-brain/internal/agents/agent.go:189-206 | The number of requests against the limit, and the step count as the number of successful ones |
| `Agent.TranscriptRecordsReplies` | apps/bzy-brain/internal/agents/agent.go:205-228 | The transcript's assistant messages are the provider's replies, each once and in order |
| `Retry.Backoff` | pkg/client/retry.go:35-42 | The int64 wait with jitter, or the panic of the random source when there is no quarter to draw from |
| `Retry.Do` | pkg/client/retry.go:11-32 | The loop makes the calls and waits, and has the outcome, of the specified run; a negative retry count makes no call and returns nil |
| `Retry.World.RestIsDo` | pkg/client/retry.go:11-32 | Between one and MaxRetries + 1 calls, all but the last failed retryably and were waited for; the outcome is the last call's, or cancellation, or a panic; each wait is at least the exponential part and less than a quarter more |
| `Retry.World.WhatIsRetried` | pkg/client/errors.go:35-41 | All calls but the last failed with status 429 or from 500 on; a failure returned before the last allowed call has another status or is no API error |
| `Retry.World.DoIsUnique` | pkg/client/retry.go:11-32 | That promise fixes the number of calls and the outcome |
| `Retry.ShippedWaits` | pkg/client/retry.go:36-40 | With the shipped base no attempt up to 34 wraps or panics, and the exponential part is the exact power of two capped at 30 s |
| `Retry.Attempt35Panics` | pkg/client/retry.go:36-40 | Attempt 35 wraps to a negative wait and panics |
| `Retry.NeverPanicsIff` | pkg/client/retry.go:11-42 | For any int64 base wait and any MaxRetries, no world makes `do` panic if and only if MaxRetries is not positive, or the base is at least 4 ns and base times 2 to the power of MaxRetries - 1 is an int64 |
| `Retry.ShippedNeverPanicsIff` | pkg/client/options.go:42-51 | With the shipped base that is MaxRetries up to 35 |
| `Retry.World.TotalWait` | pkg/client/retry.go:24-28 | The requested waits together stay below the sum of their upper bounds |
| `Retry.World.ShippedTotal` | pkg/client/options.go:42-51 | The shipped configuration makes at most 4 calls and requests at most 4.375 s of waiting |

## Left out

- Redis, Postgres, HTTP, the model provider and the tools are oracles or small stores with their documented behaviour: an append-only log with a group cursor, a timed key map, an upsert table with transactions.
- UTF-8 decoding, JSON encoding and UUIDs: text is a sequence of code points; the browser's `TextDecoder` drops a U+FEFF at the very start of the stream and Go keeps it, so on such a stream the parsers start from different texts; event data is already marshalled or known to fail, where a statement asks for clean events its JSON is non-empty, trimmed, on one line and not `[DONE]`, and generated IDs and lock tokens are assumed fresh.
- Event types and ids with line breaks, surrounding whitespace or the type "done" are not escaped by the writer; that they do not come back is proved (`SseReadBack`), what comes back instead is not described.
- `Pool`: goroutines are steps of a relation, not a class; a second `Shutdown` (which closes a closed channel), a `WaitGroup` reused while it waits, and a panicking handler are not modelled.
- `HubSteps`: channels are positions in a table and the read-write lock is the guard of the steps; the logger, and memory held by a replaced channel, are not modelled.
- `GoReader.SseReader.Iter`: the blocking of a read, and use of the reader after it was closed, are not modelled.
- `Locks.RedisLocker.AcquireLock`: a client library that resends a request whose reply was lost is not modelled; time is counted in whole milliseconds, so time-to-live values below one are not distinguished, and the client library's special value for keeping a key's old expiry counts as negative, which Redis refuses.
- `Queue.RedisQueue.Dequeue`: Redis is assumed to give every entry a stream ID of its own; trimming of the stream and creation failures of the consumer group are not modelled; `Peek` and `Depth` only read.
- `Workflow.ExecuteDAG`: describes the runs that end; on the others the loop never returns, and Dafny methods must (`EveryRunEndsIff` says which definitions have none of them).
- `Workflow.Execute`: what a caller sees of the run between its start and its end, and handlers that change the run they are given, are not modelled.
- Workflow `Cancel` only sets a status that the running goroutine may overwrite, so no stable property holds; only `Next[0]` is ever followed, so there is no fan-out.
- `Planner.Decompose`: prompting the model and parsing its JSON come before it; `Replan` and `UpdateTask` do nothing in the source.
- `Ingest.Pipeline.Ingest`: the document's own metadata and the chunker's configuration are ignored by the source too; search, deletion and answering queries are not modelled.
- `Embedding.Service.Embed`: `return v, json.Unmarshal(raw, &v)` (apps/bzy-brain/internal/embedding/embedding.go:84-85) relies on an order of operands that Go leaves unspecified, and the model reads it as the decoded vector; a provider that returns fewer vectors than texts makes the source panic and is excluded; vectors are assumed to survive their JSON form.
- `Agent.LiveAgent.Run`: timestamps, latency, temperature and tool specifications; the provider is assumed to answer in the assistant's role where a lemma says so.
- `Retry.Backoff`: for attempts from 63 on the float is no int64 and the product is a parameter; 2 to the power of the attempt is exact before that.
- Retry with a dead-letter queue, priorities and delayed tasks of the runner are described in its documentation or declared as fields, and not implemented.
- The WebSocket hub leaves a closed channel reachable, and the token refresh of the browser client can wait for itself: the natural claims about them are false as written.
- The reasoning loop, registries, configuration, health and cluster endpoints, and the user interface would only add easy members.
