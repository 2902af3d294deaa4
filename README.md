# ion-avp Builder and client table, modelled in Dafny

This project models the bookkeeping core of ion-avp's audio/video processing
package: the per-track **Builder** (pkg/builder.go), which turns a webrtc
track's RTP packets into samples through an external sample builder, numbers
them, queues them in a bounded channel and fans each one out to the attached
elements, and the **client table** of `AVP` (pkg/avp.go), which keeps one SFU
client per remote address.

Files:

- `wrappers.dfy` — `Option`, standing in for Go's nil pointers and nil funcs.
- `ints.dfy` — `Ints`: Go's `uint16`, `uint32` and `byte` as bounded newtypes.
- `codecs.dfy` — `Codecs.Select`: the codec switch of `NewBuilder`.
- `engine.dfy` — `Engine`: the Builder as a state machine on values. There is
  one step function per atomic step (`Attach`, `SetOnStop`, `Stop`, `Emit`,
  `Drain`, `Ingest`, `Forward`). Registration, teardown and dispatch hold the
  Builder's mutex in Go. The ingest loop reads `stopped` under the mutex but
  sends and advances `sequence` outside it, one sample at a time. Treating
  one pop-and-enqueue (`Emit`), or one whole ingest iteration (`Ingest`), as
  a single step is a modelling choice.
  `Inv` is the invariant every reachable state keeps. A `State` also
  records three histories used only in proofs: the samples ever enqueued,
  how many the dispatch loop has taken, and the calls made on elements and
  on the stop handler.
- `engine_proofs.dfy` — `EngineProofs`: the invariant is preserved by every
  step (`Apply`) and by every sequence of the modelled steps (`Run`). The
  teardown, numbering, fan-out and nothing-after-stop properties hold.
  `Run` accepts single `Emit` steps as well as whole ingest iterations. So a
  push that readies more samples than the queue has room for is covered:
  it is an ingest step with no pops, followed by `Emit` steps interleaved
  with `Forward` steps, which is how Go's blocked send plays out. A `stop`
  between two pops is covered the same way. This step set is a superset of
  what `build` can do, because `Run` also allows an `Emit` step with no
  packet read before it. The safety lemmas hold for all of these runs.
- `builder.dfy` — `Pipeline.Builder`: a class with the Go struct's fields.
  Its methods do what the Go methods do, loops included. Each one is proved
  to perform the matching `Engine` step on `Model()`, so every `EngineProofs`
  result applies to it. The goroutines `build` and `forward` become the step
  methods `Ingest` and `Forward`, which a scheduler may call in any order
  whenever their preconditions hold (room in `out` for `Ingest` and `Emit`;
  a queued sample or a stopped Builder for `Forward`).
- `avp.dfy` — `Clients`: get-or-create and delete-by-key on the client map,
  as pure functions and as the `Avp` class.

Behaviour worth knowing:

- An unknown codec name selects no depacketizer at all: the switch at
  pkg/builder.go:41-53 has no default, so a nil depacketizer reaches
  `samplebuilder.New` (pkg/builder.go:56). The doc comment at
  pkg/builder.go:21 says `ErrCodecNotSupported` "is returned", but nothing
  in the code returns it.
- `forward` reads the element list when it takes a sample off the queue
  (pkg/builder.go:143-146). So an element attached while a sample is still
  queued receives that sample, even though it was emitted before the
  attachment (`LateElementGetsQueuedSample`). It never receives a sample
  that was taken off the queue before it was attached
  (`LateElementMissesEarlierSamples`).
- `AttachElement` does not check `stopped` (pkg/builder.go:72-76). An
  element attached after the stop is kept in the list but is never written
  to and never closed (`AttachAfterStopNeverClosed`).
- Samples still queued when the Builder stops are dropped: `forward`
  returns on the first sample it takes after the stop
  (pkg/builder.go:147-150).

## Model

| member | source | states |
|---|---|---|
| `Codecs.Select` | pkg/builder.go:38-63 | opus, VP8 and VP9 select their own depacketizer and partition-head checker; H264 selects its depacketizer and no checker; any other name selects neither, and no error is returned; selection agrees with the name table `NameOf` in both directions |
| `Engine.Init` | pkg/builder.go:55-59 | a new Builder's state: unstopped, no handler, no elements, counter 0, empty open queue, nothing emitted or called |
| `Engine.Attach` | pkg/builder.go:72-76 | `e` is appended to the elements and nothing else changes, whether or not the Builder is stopped |
| `Engine.SetOnStop` | pkg/builder.go:84-88 | the handler (possibly none) replaces the previous one and nothing else changes |
| `Engine.Stop` | pkg/builder.go:162-176 | no-op when stopped; otherwise sets `stopped`, logs a Close per element in order and the handler call if set, and closes the queue; defined only where the queue is not already closed |
| `Engine.Emit` | pkg/builder.go:114-135 | after one pop: halts if stopped, ends the drain on nil, else enqueues a sample carrying the track's kind and id, the pop's payload and timestamp and the current counter, and advances the counter modulo 2^16 |
| `Engine.Drain` | pkg/builder.go:112-136 | repeats `Emit` over the pops until it halts or drains; running out of pops counts as the nil pop |
| `Engine.Ingest` | pkg/builder.go:90-137 | one iteration of `build`: returns if stopped; io.EOF stops and returns; another error continues; a packet drains |
| `Engine.Forward` | pkg/builder.go:141-159 | takes the oldest queued sample if any; if stopped returns; else logs one Write per element in attachment order with each Write's result |
| `Pipeline.Builder.constructor` | pkg/builder.go:38-69 | a new Builder is unstopped, has no elements, no handler, an empty queue, counter 0, and its strategy is `Select` of the track's codec name |
| `Pipeline.Builder.AttachElement` | pkg/builder.go:72-76 | `e` is appended last, earlier elements keep their order, nothing else changes, the invariant is kept |
| `Pipeline.Builder.OnStop` | pkg/builder.go:84-88 | the handler replaces any earlier one; nothing else changes |
| `Pipeline.Builder.Stop` | pkg/builder.go:162-176 | a second call changes nothing; the first sets `stopped`, closes each element in order, calls the handler if set and closes `out`, which was not closed before (no double-close panic) |
| `Pipeline.Builder.Emit` | pkg/builder.go:112-135 | after a pop: returns if stopped, goes back to reading on nil, else enqueues the sample stamped with the current counter and advances the counter modulo 2^16 |
| `Pipeline.Builder.Ingest` | pkg/builder.go:90-137 | one iteration of `build`: returns if stopped; on io.EOF stops and returns; on another read error continues; on a packet drains the pops through `Emit` until the first nil |
| `Pipeline.Builder.Forward` | pkg/builder.go:141-159 | takes the oldest queued sample, returns if stopped, else writes it to every element in attachment order, whatever each Write returns |
| `EngineProofs.InitInv` | pkg/builder.go:55-59 | the initial state satisfies the invariant, with counter 0 and nothing attached |
| `EngineProofs.StopClosesEachElementOnce` | pkg/builder.go:165-175 | the first stop closes exactly the attached elements, once each, in attachment order, then calls the registered handler as the last call; stopping again is a no-op |
| `EngineProofs.StopPreservesInv` | pkg/builder.go:162-176 | stop keeps the invariant: no write after a close, handler call last, i-th close is of the i-th element |
| `EngineProofs.EmitPreservesInv` | pkg/builder.go:117-135 | one emit keeps the invariant (consecutive numbering, queue is the untaken suffix of emitted samples, bound 100) |
| `EngineProofs.DrainPreservesInv` | pkg/builder.go:112-136 | the drain loop keeps the invariant and makes no call on elements |
| `EngineProofs.IngestPreservesInv` | pkg/builder.go:92-137 | one iteration of `build` keeps the invariant |
| `EngineProofs.ForwardPreservesInv` | pkg/builder.go:142-157 | one iteration of `forward` keeps the invariant; only dequeued samples are written |
| `EngineProofs.DrainEnqueuesReady` | pkg/builder.go:112-136 | draining enqueues exactly the samples before the first nil pop, in pop order, numbered consecutively from the count of samples emitted so far, modulo 2^16 |
| `EngineProofs.IngestReadOutcomes` | pkg/builder.go:93-108 | io.EOF stops the Builder and ends `build`; any other read error changes nothing and `build` goes on; a stopped Builder's `build` returns without reading |
| `EngineProofs.WriteEventsAt` | pkg/builder.go:151-156 | fan-out makes one Write per element, in attachment order, none skipped whatever the results |
| `EngineProofs.ForwardDeliversOldest` | pkg/builder.go:143-157 | the k-th sample taken from the queue is the k-th emitted, numbered k modulo 2^16, and is written to every element attached at that moment |
| `EngineProofs.LateElementGetsQueuedSample` | pkg/builder.go:143-152 | an element attached while a sample waits in the queue receives that sample |
| `EngineProofs.LateElementMissesEarlierSamples` | pkg/builder.go:143-152 | an element attached after `dequeued` samples were taken off the queue is only ever written samples emitted later than those, over every run |
| `EngineProofs.StepWritesOnlyWhatItTakes` | pkg/builder.go:143-157 | one step only appends to the log and the emitted samples, never returns a sample to the queue, and writes only the sample it takes itself |
| `EngineProofs.WritesAfterAreOfLaterSamples` | pkg/builder.go:141-159 | over any run from a state, every later Write is of a sample that was still queued or not yet emitted in that state |
| `EngineProofs.Apply` | pkg/builder.go:72-176 | every modelled step (attach, set handler, stop, ingest iteration, single emit, forward) keeps the invariant |
| `EngineProofs.Run` | pkg/builder.go:65-66 | every sequence of modelled steps keeps the invariant and never unsets `stopped` |
| `EngineProofs.NothingAfterStop` | pkg/builder.go:94-97 | once stopped, no later steps write, close, call the handler or enqueue, and `stopped` stays set |
| `EngineProofs.AttachAfterStopNeverClosed` | pkg/builder.go:72-76 | an element attached after the stop is kept but never closed or written to |
| `EngineProofs.ElementsOnlyGrow` | pkg/builder.go:75 | no step removes or reorders attached elements |
| `EngineProofs.RunSafety` | pkg/builder.go:128-175 | in every run from creation: no Write follows a Close, the handler is called at most once and last, the i-th Close is of the i-th attached element, nothing is closed before the stop, and every written sample is the k-th emitted, numbered k modulo 2^16 |
| `Clients.Register` | pkg/avp.go:48-57 | afterwards `addr` is present and maps to the returned client; an existing entry is reused and the map is unchanged; otherwise exactly `addr` is added; no other entry is altered or removed |
| `Clients.Unregister` | pkg/avp.go:52-56 | removes the key `addr` and nothing else |
| `Clients.RegisterThenClose` | pkg/avp.go:48-57 | creating a client for a new address and then closing it restores the table |
| `Clients.RegisterIsIdempotent` | pkg/avp.go:48-50 | processing the same address again reuses its client and leaves the table unchanged |
| `Clients.RegisterCommutes` | pkg/avp.go:44-58 | processing two distinct addresses in either order gives the same table and clients |
| `Clients.Sfu.constructor` | pkg/avp.go:51 | `NewSFU(addr, …)`: a new client for `addr`, with no close callback registered yet |
| `Clients.Sfu.OnClose` | pkg/avp.go:52-56 | registering the close callback records the key the callback will delete |
| `Clients.Avp.constructor` | pkg/avp.go:30-41 | a new AVP has an empty client table |
| `Clients.Avp.Process` | pkg/avp.go:44-62 | get-or-create under the lock: the table becomes `Register` of the old one; a created client is fresh and its close callback captures `addr` |
| `Clients.Avp.ClientClosed` | pkg/avp.go:52-56 | the close callback deletes the key it captured, whichever client is stored there now |

## Left out

- Goroutines, channel blocking and the RWMutex: each modelled step is atomic. `Run` takes any sequence of attach, set-handler, stop, ingest-iteration, single-emit and forward steps. Interleavings finer than one emit are not modelled.
- Pipeline.Builder.Ingest: a full `out` channel blocks the send in Go. This method instead runs a whole iteration of `build` at once, and it requires room for every sample its pops make ready (`CanSend`, `Ready`). A larger push, or a `stop` between two pops, is covered only by `Run` through single `Emit` steps, not by this method. Backpressure timing is not modelled.
- Engine.Ingest: requires room in `out` for every sample its pops make ready (`CanSend`, `Ready`), where Go blocks mid-drain until `forward` frees a slot. A larger push is covered only by `Run` through single `Emit` steps.
- Engine.Drain: has the same room precondition as `Engine.Ingest`, for the same reason.
- Engine.Emit: requires a free slot in `out` to enqueue, where Go blocks on the send. Blocking is modelled as the step not being enabled until a `Forward` step frees a slot.
- Pipeline.Builder.Emit: requires a free slot in `out` to enqueue, as `Engine.Emit` does.
- The send-after-close race is not modelled. `build` reads `stopped` under the read lock, releases it, and then sends, while `stop` may close `out` in between. This is a concurrency hazard.
- samplebuilder (reassembly, jitter window, `maxLate`) is an external library. `Push` is not modelled, and `PopWithTimestamp` results are an input sequence, where running out counts as nil.
- webrtc `Track`, `ReadRTP` and the rtp codec types are opaque. A read result is one of packet, io.EOF or another error; depacketizers and checkers are format tags.
- Element `Write`/`Close` and the stop handler are recorded as events in a log. Write results are an input and only the log shows them. Error logging is otherwise not modelled.
- `Track()`, `Builder.stats`, `AVP.stats`, the ticker and all logging are accessors, formatting and I/O.
- `NewSFU`, `GetTransport`, the transport's `Process`, the global `registry`/`Init` and `log.Init` are external collaborators. `NewSFU` becomes the creation of a fresh `Sfu` object.
