# AI-switch: verified models of its concurrent and streaming core

AI-switch is an API gateway. Four of its components carry properties that hold over every run rather
than for one call, and those are modelled here:

* the **token bucket** of the rate limiter: a lazy refill under a mutex with a double check, lock-free
  consumption by compare-and-swap, and hot reconfiguration;
* the **stream relay**: two incremental event-stream parsers fed with arbitrarily cut chunks, the write
  callbacks that decode them, and the re-framing that sends the reply on to the client;
* the **thread pool**: any number of submitters and workers, one mutex, one condition variable, and a
  destructor that sets the stop flag outside the mutex;
* the **connection pool** with the repository calls that borrow from it and return to it.

Objects whose methods change their fields are classes (`Sse.SseHandler`,
`Anthropic.AnthropicStreamParser`, `Relay.Session`, `TokenBucket.TokenBucket`, `ThreadPoolObject.Pool`,
`Repository.Pool`). Each of their methods is tied to a function of the old state, and the properties are
proved about that function. What several threads do at once is a step system: a state, actions, and a
total step function in which an action that is not enabled changes nothing. A run is then any sequence
of actions, so a lemma over all sequences covers every interleaving. Fields named as history (the token
ledger, the accepted, taken and finished tasks, the traces of borrowed connections) record what has
happened and are never read by a step that decides anything.

| file | content |
|---|---|
| `Basics.dfy`, `Seqs.dfy`, `Arith.dfy` | options, sequence facts, integer division |
| `Framing.dfy` | cutting a growing buffer at blank lines, for any meaning of a block |
| `EventStream.dfy` | the event stream interpreter of the HTML Living Standard, sections 9.2.5 and 9.2.6 |
| `SseHandler.dfy`, `SseStandard.dfy` | `sse_handler`; its relation to the standard |
| `AnthropicParser.dfy` | `anthropic_stream_parser`; its relation to the standard |
| `Relay.dfy` | write callbacks, session, and the relay from upstream bytes to client bytes |
| `RelayCuts.dfy` | how much of the relay depends on the way the upstream bytes were cut |
| `TokenBucket.dfy` | the bucket used by one thread at a time, over whole runs |
| `TokenBucketThreads.dfy`, `TokenBucketBounds.dfy` | the bucket under any interleaving; what it can really grant |
| `TokenBucketCalls.dfy` | what a single call can rely on while others run: why it is denied, what it credits, that it takes effect |
| `TokenBucketSolo.dfy` | every uninterrupted call of the step system is the sequential one |
| `Wakeup.dfy` | the wakeup accounting both pools share |
| `ThreadPool.dfy`, `ThreadPoolSubmit.dfy`, `ThreadPoolShutdown.dfy` | the thread pool, what becomes of a submitted task, the shutdown |
| `ThreadPoolObject.dfy`, `ThreadPoolSolo.dfy` | its critical sections as a class; what one thread does uninterrupted |
| `ConnectionPool.dfy`, `ConnectionPoolNull.dfy` | the connection pool under any interleaving; null connections |
| `Repository.dfy`, `ConnectionPoolSolo.dfy` | the sequential pool and calls; every uninterrupted call of the step system is the sequential one |

## What the code does that its documentation does not say

* **Rate.** The bound one expects of a token bucket, `granted <= capacity + rate * seconds`, fails when
  two threads use the bucket: a grant that lands between the refill's load and its store is overwritten.
  `TokenBucketBounds.NominalBoundExact` gives the exact condition under which the bound holds in every
  interleaving: at most one thread, or a rate of at least the capacity. What always holds is
  `capacity * (1 + seconds)`, and `TokenBucketBounds.BoundIsTight` reaches it.
* **Refill.** The fraction of a second left over by a refill is dropped, up to almost half of the time.
* **End mark.** A session closes the connection in the completion handler of the end mark's write, so
  handlers posted after it may still write. What follows the end mark upstream therefore reaches the
  client or not depending on how curl cut the bytes and when that handler runs; `RelayCuts.WireExact`
  and `RelayCuts.PromptWireExact` say for which streams.
* **Shutdown.** A worker that has read the stop flag as false and found the queue empty can go to sleep
  after the destructor's `notify_all`, and the destructor then waits for ever unless a spurious wakeup
  occurs. `ThreadPoolShutdown.DestructorExact` says that these workers, and nothing else, cause it.
* **Newlines in content.** `make_chunk` does not split its content into lines. A client that follows
  the standard gets exactly the content if and only if it is on one line; the gateway's own parser
  gets it under a different condition.
* **Null connections.** The header promises that `borrow` blocks until a connection is returned; the
  code gives up after five seconds with a null pointer, which three of its four callers do not check.
  `ConnectionPoolNull.NullUseExact` says when that can matter.
* `last_refill_` is documented as accessed under the mutex only, but the first check of `refill` reads
  it without.
* The Anthropic write callback asks its parser for `is_done()`, which the parser does not declare; the
  model reads the field `done`.

## Model

| member | source | states |
|---|---|---|
| Framing.UniqueFraming | src/stream/sse_handler.cpp:16-25 | the bytes are block, blank line, ..., remainder in exactly one way with clean blocks and a remainder without a break, and the loop finds it |
| Framing.FeedAllIsFeed | src/stream/sse_handler.cpp:12-49 | feeding chunk by chunk gives the messages, buffer and flag of feeding everything at once |
| Framing.SplitIndependence | src/stream/sse_handler.cpp:12-49 | two ways of cutting the same bytes give the same messages, buffer and flag |
| Framing.TextsAt | src/stream/sse_handler.cpp:16-45 | the texts a parser returns are those of exactly the blocks that have one, in order |
| Sse.SseHandler.constructor | src/stream/sse_handler.h:53-56 | a new parser has an empty buffer and is not done |
| Sse.SseHandler.Feed | src/stream/sse_handler.cpp:12-49 | the loop returns the payloads of the framed blocks and keeps the remainder and the flag, terminating on the buffer's length |
| Sse.FeedsBlock | src/stream/sse_handler.cpp:27-45 | for every block: "data: [DONE]" and "[DONE]" set the flag, "data: " and the blank block give nothing, any other gives its bytes without a leading "data: " |
| Sse.FeedIsRelayable | src/stream/sse_handler.cpp:27-45 | whatever arrives, a returned message is non-empty, has no blank line, does not end in a line feed and is not the end mark |
| Sse.RoundTrip | src/stream/sse_handler.h:44-46 | decoding an encoded reply gives its non-empty messages in order, an empty buffer and no end mark |
| Sse.ExactInversion | src/stream/sse_handler.h:44-46 | for a reply of any length: decoding gives back exactly the messages if and only if each is relayable |
| Sse.ExactInversionOne | src/stream/sse_handler.h:44-46 | the same for one chunk, with the condition spelled out |
| Sse.EndMark | src/stream/sse_handler.h:49-51 | the end chunk is "data: [DONE]" and a blank line, and a parser that gets it is done and returns nothing |
| EventStream.FramingAgrees | src/stream/sse_handler.cpp:16-25 | on every stream without CR, the standard dispatches exactly the events of the blocks the loop cuts |
| SseStandard.AgreementOnSimpleBlocks | src/stream/sse_handler.cpp:16-45 | if every complete block is one data line, messages are the dispatched data without end marks, which set the flag |
| SseStandard.StandardAgreement | src/stream/sse_handler.cpp:16-45 | the same after any number of bytes of a stream of single-line data events |
| SseStandard.StandardAgreementExact | src/stream/sse_handler.cpp:16-45 | for every stream: messages and flag agree with the dispatched data after every number of bytes if and only if each complete block is blank, a single non-empty data line, or a bare end mark after a proper one, and the incomplete block (where CR ends lines too) dispatches at most further end marks |
| SseStandard.BlockAgreementExact | src/stream/sse_handler.cpp:16-45 | for every single block: they agree on it if and only if it is blank or a single non-empty data line |
| SseStandard.TwoDataLinesDiffer | src/stream/sse_handler.cpp:27-32 | an instance of disagreement: of two data lines only the first loses its prefix |
| SseStandard.StandardClientExact | src/stream/sse_handler.h:44-46 | a client following the standard gets exactly m out of make_chunk(m) if and only if m contains no CR or LF |
| SseStandard.StandardClientDecodes | src/stream/sse_handler.h:44-46 | and a whole reply of such messages, the empty ones included, in order |
| Anthropic.ReadBlock | src/adapter/anthropic_adapter.cpp:64-82 | the inner loop finds the value of the last event line and of the last data line, and terminates |
| Anthropic.AnthropicStreamParser.constructor | src/adapter/anthropic_adapter.cpp:46-48 | a new parser has an empty buffer and is not done |
| Anthropic.AnthropicStreamParser.Feed | src/adapter/anthropic_adapter.cpp:51-104 | the loop returns the texts of the framed blocks and keeps the remainder and the flag |
| Anthropic.AnthropicSplitIndependence | src/adapter/anthropic_adapter.cpp:51-104 | texts, buffer and flag depend on the bytes alone |
| Anthropic.PairsAgree | src/adapter/anthropic_adapter.cpp:62-82 | after any number of bytes of well-formed events the parser has read the (type, data) pairs the standard dispatches |
| Anthropic.ReadExact | src/adapter/anthropic_adapter.cpp:84-98 | for every block: the flag is set by type "message_stop" only, a text comes from type "content_block_delta" with non-empty decodable data only, and is the decoded data |
| Anthropic.TextsOfSent | src/adapter/anthropic_adapter.cpp:84-98 | after any number of bytes of well-formed events the texts are, in order, the decoded data of exactly the complete "content_block_delta" events with non-empty decodable data |
| Anthropic.AnthropicStandardAgreement | src/adapter/anthropic_adapter.cpp:84-98 | so texts and flag are those of the events the standard dispatches, the flag being set by "message_stop" |
| Relay.OpenAiCallback | src/adapter/openai_compatible_adapter.cpp:39-71 | one callback posts the decodable contents of the new messages, then done if the end mark has been seen |
| Relay.ContentsOfMessages | src/adapter/openai_compatible_adapter.cpp:44-63 | the contents posted are those of exactly the messages that have one, in order |
| Relay.AnthropicCallback | src/adapter/anthropic_adapter.cpp:120-138 | the same for the Anthropic parser |
| Relay.StreamChunks | src/adapter/openai_compatible_adapter.cpp:39-71 | all callbacks of a transfer post what the specification says |
| Relay.Session.constructor | src/server/session.cpp:189-212 | a session whose header has been sent has written nothing else and is not ending |
| Relay.Session.SendStreamChunk | src/server/session.cpp:218-247 | writes the chunk, or the end mark, which leaves the connection open; nothing before the header or once the connection is closed |
| Relay.Session.OnEndWritten | src/server/session.cpp:230-233 | the completion handler of the end mark's write closes the connection |
| Relay.Session.Deliver | src/server/session.cpp:116-123 | the posted handlers write the chunks and end marks in order until the completion handler of the first end mark runs, any number of handlers later |
| Relay.RelayOpenAi | src/server/session.cpp:111-123 | a whole reply puts the specified bytes on the wire, whenever that completion handler runs |
| Relay.RelayedBytes | src/adapter/openai_compatible_adapter.cpp:44-68 | for an upstream stream ending in its only end mark, however cut: contents in order, done once and last |
| Relay.ClientDecodes | src/server/session.cpp:225-238 | a client parsing the relayed bytes gets the non-empty contents and done if and only if all are relayable |
| Relay.RelayFidelity | src/server/session.cpp:116-122 | end to end, for every cut on both sides and every moment of closing: the client gets the non-empty contents and done if and only if all are relayable |
| Relay.RelayToStandardClient | src/server/session.cpp:116-122 | end to end for a client following the standard and single-line contents |
| RelayCuts.PostsExact | src/adapter/openai_compatible_adapter.cpp:44-68 | for every upstream stream: every cut into non-empty chunks makes the callbacks post the contents in order and then done once, if and only if the stream ends in its only end mark |
| RelayCuts.PostsCutIndependent | src/adapter/openai_compatible_adapter.cpp:44-68 | for every upstream stream: the posts do not depend on the cut if and only if there is no end mark or the stream ends in its only one |
| RelayCuts.WireExact | src/server/session.cpp:225-247 | for every upstream stream: every cut and every moment of closing puts the contents and one end mark on the wire if and only if the stream ends in its only end mark |
| RelayCuts.PromptWireExact | src/server/session.cpp:225-247 | for every upstream stream: if the connection closes before the next handler, the wire does not depend on the cut if and only if no text follows an end mark |
| RelayCuts.ContentAfterDone | src/adapter/openai_compatible_adapter.cpp:65-68 | an instance: a content behind the end mark is posted before the only done or between two, depending on the cut |
| TokenBucket.TokenBucket.constructor | src/middleware/rate_limiter.cpp:15-21 | a new bucket is full and counts from now |
| TokenBucket.TokenBucket.Refill | src/middleware/rate_limiter.cpp:38-73 | nothing while less than a second has passed at either clock read; otherwise rate * the whole seconds passed, clamped at the capacity, and the new refill time |
| TokenBucket.RefillExact | src/middleware/rate_limiter.cpp:50-72 | for any two clock reads: the credit is exactly rate * whole seconds unless it exceeds the capacity, which is then reached |
| TokenBucket.TokenBucket.TryAcquire | src/middleware/rate_limiter.cpp:97-119 | refills, then takes the tokens if there are enough, however often the weak CAS fails spuriously |
| TokenBucket.TokenBucket.UpdateConfig | src/middleware/rate_limiter.cpp:129-139 | new capacity and rate; tokens unchanged if they fit, the new capacity otherwise |
| TokenBucket.TokenBucket.CurrentTokens | src/middleware/rate_limiter.h:56-58 | reads the tokens |
| TokenBucket.RunLedger | src/middleware/rate_limiter.cpp:54-72 | over any run tokens + granted + clipped = initial + rate * credited seconds, and these cover more than half of the refilled time |
| TokenBucket.RunUnclipped | src/middleware/rate_limiter.cpp:54-72 | over any run whose credit fits into the capacity tokens + granted = initial + rate * credited seconds |
| TokenBucket.HalfTheTime | src/middleware/rate_limiter.cpp:54-72 | once a run has been credited with anything: credited time <= last refill - start < twice the credited time |
| TokenBucket.ThroughputFloor | src/middleware/rate_limiter.cpp:54-72 | so with nothing clipped tokens and grants together gain rate * credited seconds, which is at least half the rate |
| TokenBucket.NoLossExact | src/middleware/rate_limiter.cpp:54-72 | no time is lost if and only if every refill comes a whole number of seconds after the one before |
| TokenBucket.HalfIsTight | src/middleware/rate_limiter.cpp:54-72 | the bound on the loss is reached for every number of refills |
| TokenBucket.WindowEnvelope | src/middleware/rate_limiter.cpp:38-119 | a window of calls starting in any valid state grants at most capacity + rate * ceil(window) |
| TokenBucket.BurstEnvelope | src/middleware/rate_limiter.cpp:38-119 | the same for every contiguous window of every run, of a new bucket or any other valid one |
| TokenBucket.LazyRefinesEager | src/middleware/rate_limiter.cpp:38-119 | with clock reads on whole seconds, decisions and counts equal those of a bucket refilled by a timer every second |
| TokenBucketThreads.RangeInvariant | src/middleware/rate_limiter.cpp:61-139 | in every interleaving with reconfiguration tokens stay in range, except above the capacity while update_config is between its writes |
| TokenBucketThreads.ExactLedger | src/middleware/rate_limiter.cpp:63-119 | granted + tokens + truncated = capacity + earned - clipped + overwritten, in every interleaving with reconfiguration |
| TokenBucketThreads.ConcurrentBound | src/middleware/rate_limiter.cpp:50-118 | at fixed configuration granted <= capacity * (1 + seconds) in every interleaving |
| TokenBucketThreads.NominalBound | src/middleware/rate_limiter.cpp:63-119 | at fixed configuration only overwritten grants exceed capacity + rate * seconds |
| TokenBucketThreads.NominalBoundWithoutOverwrites | src/middleware/rate_limiter.cpp:63-119 | if no CAS succeeded inside a completed load-store window, the nominal bound holds |
| TokenBucketThreads.LastMovesOn | src/middleware/rate_limiter.cpp:50-72 | in every interleaving with reconfiguration the refill time only moves on, and by a second at least |
| TokenBucketThreads.RefillsApart | src/middleware/rate_limiter.cpp:50-72 | in every part of every interleaving with reconfiguration, n refill stores take n seconds at least |
| TokenBucketThreads.TokensFall | src/middleware/rate_limiter.cpp:97-119 | at fixed configuration tokens only fall between refill stores, by exactly what is granted |
| TokenBucketThreads.FailureSeesLess | src/middleware/rate_limiter.cpp:104-115 | a CAS that fails for real without a refill store since the last read sees a strictly smaller value |
| TokenBucketThreads.CasLoopBound | src/middleware/rate_limiter.cpp:102-115 | real failures in one loop are at most (k + 1) * (capacity + 1), k refill stores landing meanwhile |
| TokenBucketCalls.CallEndsOnlyWhenDecided | src/middleware/rate_limiter.cpp:38-139 | in every interleaving a call keeps its request and ends only in its CAS loop, granted in full or after reading fewer tokens than it asks for; an update_config ends only behind its unlock |
| TokenBucketCalls.LoopReadsTokens | src/middleware/rate_limiter.cpp:102-115 | every step that enters the loop or stays in it leaves `expected` at the tokens of that moment |
| TokenBucketCalls.DeniedOnlyWhenShort | src/middleware/rate_limiter.cpp:97-119 | a call is denied only if at some moment of its loop there were fewer tokens than it asks for |
| TokenBucketCalls.StoreExact | src/middleware/rate_limiter.cpp:54-72 | in every interleaving with reconfiguration a refill store credits exactly rate * the whole seconds between two refill times on top of what was loaded, and clips only at the capacity |
| TokenBucketCalls.TruncationExact | src/middleware/rate_limiter.cpp:135-138 | a truncating store leaves the new capacity and cuts off exactly what was loaded beyond it |
| TokenBucketCalls.OtherwiseOnlyGrants | src/middleware/rate_limiter.cpp:38-139 | no other step changes the tokens but by what it grants |
| TokenBucketCalls.NoOverdueRefill | src/middleware/rate_limiter.cpp:38-73 | when a call gets to its tokens, whoever else runs, less than a second lies between the last refill and the moment the call began |
| TokenBucketCalls.ReconfigurationTakesEffect | src/middleware/rate_limiter.cpp:129-139 | at the end of every update_config, whoever else runs, its capacity and rate are in force and the tokens within them |
| TokenBucketBounds.BoundIsTight | src/middleware/rate_limiter.cpp:63-119 | two threads reach capacity * (1 + k) after k seconds, whatever the rate |
| TokenBucketBounds.NominalBoundExact | src/middleware/rate_limiter.cpp:63-119 | the nominal bound holds in every interleaving if and only if there is at most one thread or capacity <= rate |
| TokenBucketSolo.SoloCallIsAcquire | src/middleware/rate_limiter.cpp:38-119 | every run in which only the caller moves, with any passing of time and spurious CAS failures, does at its end what the sequential bucket does for the clock values read |
| TokenBucketSolo.SoloCallEnds | src/middleware/rate_limiter.cpp:38-119 | and such a call can always be run to its end |
| TokenBucketSolo.SoloConfigIsReconfigure | src/middleware/rate_limiter.cpp:129-139 | every run in which only the caller of update_config moves is at its end the sequential reconfiguration |
| TokenBucketSolo.SoloConfigEnds | src/middleware/rate_limiter.cpp:129-139 | and such a call can always be run to its end |
| Wakeup.RunKeeps | src/util/thread_pool.h:67-75 | for any queue whose producers push under the lock and notify after it, no wakeup is lost |
| ThreadPool.StepMoves | src/util/thread_pool.cpp:39-66 | every step of the thread pool is a move of that queue |
| ThreadPool.WorkConserving | src/util/thread_pool.cpp:44-57 | while a worker sleeps, queued tasks <= owed notifications + workers on their way; with none of these a non-empty queue means all are busy |
| ThreadPool.DrainGuarantee | src/util/thread_pool.cpp:20-61 | taken then queued is accepted; after any exit the queue is empty for good; after all exits every accepted task ran exactly once |
| ThreadPoolSubmit.SubmitEndsOnlyWhenDecided | src/util/thread_pool.h:67-75 | a step of submit keeps its task, pushes it last, or gives it up after reading the stop flag as true |
| ThreadPoolSubmit.SubmitOutcome | src/util/thread_pool.h:67-75 | in every interleaving a submitted task is still on its way, accepted, or its pool has stopped |
| ThreadPoolShutdown.ShutdownBounded | src/util/thread_pool.cpp:20-28 | with no worker about to sleep at notify_all, shutdown takes boundedly many steps and can only stop with all workers gone |
| ThreadPoolShutdown.HungForever | src/util/thread_pool.cpp:20-28 | a worker that sleeps past the last notification stays asleep unless it wakes spuriously |
| ThreadPoolShutdown.DestructorExact | src/util/thread_pool.cpp:20-28 | the destructor, judged when it is called, can wait for ever if and only if some worker has read the flag as false and, with the queue empty, has not slept yet |
| ThreadPoolShutdown.ShutdownExact | src/util/thread_pool.cpp:21-22 | the same judged when notify_all has run |
| ThreadPoolShutdown.DestructorCanHang | src/util/thread_pool.cpp:20-28 | that state is reachable in every pool with a worker |
| ThreadPoolSolo.SoloWorker | src/util/thread_pool.cpp:39-66 | an uninterrupted worker takes the oldest task, runs it and is back where it was, stopped or not |
| ThreadPoolSolo.SoloSubmit | src/util/thread_pool.h:67-76 | an uninterrupted submit is refused by a stopped pool, which it leaves unchanged; otherwise it queues the task last and wakes a sleeper if there is one |
| ThreadPoolObject.Pool.constructor | src/util/thread_pool.h:91-95 | a new pool has no tasks and is not stopped |
| ThreadPoolObject.Pool.Submit | src/util/thread_pool.h:67-73 | appends the task, or refuses it once the pool is stopped |
| ThreadPoolObject.Pool.WorkerLoop | src/util/thread_pool.cpp:39-66 | a worker left alone runs all queued tasks in order, then returns if the pool is stopped and waits if not |
| ConnectionPool.StepMoves | src/db/connection_pool.cpp:115-147 | every step of the connection pool is a move of the shared monitor |
| ConnectionPool.ConnectionConservation | src/db/repository.cpp:31-95 | idle and held connections are the created ones, each once; every finished call returned what it borrowed exactly once or never had it |
| ConnectionPool.WaitersCovered | src/db/connection_pool.cpp:115-147 | while a client sleeps, idle connections <= owed notifications + clients on their way |
| ConnectionPoolNull.NullUseExact | src/db/repository.cpp:121-202 | an admin call can go on with a null connection if and only if there are more clients than connections |
| ConnectionPoolNull.GotNullExact | src/db/connection_pool.cpp:119-123 | each of the four calls can get a null connection if and only if there are more clients than connections |
| ConnectionPoolNull.FindNeverUsesNull | src/db/repository.cpp:33-37 | find_api_key never does |
| ConnectionPoolNull.PatientUntilTimeout | src/db/connection_pool.cpp:119-123 | without its own timeout no client gives up, however often it is woken |
| ConnectionPoolNull.CallEndsOnlyWhenDecided | src/db/repository.cpp:31-216 | in every interleaving a call stays the same call, ends with its record behind its notification or after a timeout with no connection idle, and gets a null connection in no other way |
| ConnectionPoolSolo.SoloBorrow | src/db/connection_pool.cpp:115-130 | in every run in which only the caller moves, borrow takes the first idle connection and changes nothing else |
| ConnectionPoolSolo.SoloCall | src/db/repository.cpp:31-95 | every call of the four that runs to its end with only the caller moving, whatever the outcomes of its query, leaves the idle queue as the sequential call does, has borrowed and returned the first connection, and has woken one sleeper if there was one |
| ConnectionPoolSolo.SoloCallEnds | src/db/repository.cpp:31-95 | and it can be run to its end for every outcome of the query and of fetching its result |
| Repository.Pool.constructor | src/db/connection_pool.cpp:27-35 | the loop queues the connections that could be opened, in order |
| Repository.OpenPool | src/db/connection_pool.cpp:27-46 | construction fails if and only if no connection could be opened |
| Repository.OpenedAt | src/db/connection_pool.cpp:27-35 | the queue holds exactly the connections that could be opened, in the order of the attempts |
| Repository.Pool.Borrow | src/db/connection_pool.cpp:115-130 | takes the first idle connection, or none after the timeout |
| Repository.Pool.ReturnConnection | src/db/connection_pool.cpp:139-147 | appends it to the idle queue |
| Repository.FindApiKey | src/db/repository.cpp:31-95 | found and error for every outcome, each column in its own field with its default for NULL (0, "", 60), enabled exactly for "1", and the connection back in the queue |
| Repository.ListApiKeys | src/db/repository.cpp:156-188 | all rows in order, field by field as above, and the connection back in the queue; no result when the pool stays empty |

## Left out

- Sockets, the acceptor, signals, Beast reads and writes, curl set-up and HTTP status handling: library I/O. Posted handlers and their writes are taken to happen in posting order, and a write started after the connection has been closed does not reach the client.
- MySQL, SQL text, escaping and key generation: foreign code; query outcomes are arbitrary. A column that does not parse as a number, which would throw and lose the connection, is not modelled.
- JSON: the decoders are arbitrary partial functions from text to text, so every result holds for any JSON library.
- Bytes are characters: the parsers only compare bytes for equality, so this only enlarges what the lemmas quantify over. The byte order mark that decoding strips from the start of a stream is not modelled.
- Weak memory: atomics, the unlocked read of `last_refill_` and mutex sections are sequentially consistent steps.
- TokenBucket.TokenBucket.Refill: does not model 64-bit wrap-around of `elapsed * refill_rate_` and the sum with the tokens; integers are unbounded.
- TokenBucket.TokenBucket.TryAcquire: request sizes in the lemmas about runs are at least 1 and capacities and rates are not negative; the code accepts others without a check.
- TokenBucketThreads.ConcurrentBound: fixed configuration only, because a reconfiguration changes the capacity the bound speaks of.
- Relay.RelayFidelity: chunks are not empty and the end mark is the last thing upstream sends; `RelayCuts.WireExact` shows that the second condition is necessary.
- The error message a session sends when the adapter throws: it contributes one more chunk and the same end.
- The `retry` field of the standard: it does not influence what is dispatched.
- Repository.ListApiKeys: what a call does after it has gone on with a null connection is undefined and not modelled; the result is then none. The calls that create and disable keys are in the step system only, where they differ from it in the query.
- A client whose call went on with a null connection makes no further step in the model; what the real program does then is undefined.
- Destroying a connection pool while connections are borrowed, and the tasks of the thread pool: a task is one step that ends.
- Router, configuration, logging, authentication, adapter factory and request builders: wiring that would only add easy members.
