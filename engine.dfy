/**
 * The bookkeeping of one Builder (pkg/builder.go) as a state machine on
 * values. Each step function is one atomic step: registering an element or
 * a stop handler, the idempotent teardown, one pop-and-enqueue of the
 * ingest loop, one whole iteration of the ingest loop, one iteration of the
 * dispatch loop. In the source, registration, teardown and dispatch hold
 * the Builder's mutex; the ingest loop only reads `stopped` under it and
 * sends to `out` and advances `sequence` outside it, one sample at a time,
 * so treating a pop-and-enqueue or a whole ingest iteration as one step is
 * a modelling choice.
 *
 * Besides the Builder's own fields, a State carries three histories used
 * only to state properties: every sample ever enqueued (`emitted`), how many
 * of them the dispatch loop has taken (`dequeued`), and the calls the Builder
 * made on its collaborators (`log`: element Write and Close calls and the
 * stop-handler call).
 */
module Engine {
  import opened Wrappers
  import opened Ints

  /** Capacity of the `out` queue (pkg/builder.go, maxSize). */
  const MaxSize: nat := 100

  /** `n++` on a Go uint16: wraps from 65535 to 0. */
  function Next(n: uint16): uint16
  {
    ((n as int + 1) % 0x1_0000) as uint16
  }

  /** What the Builder reads from its webrtc track: its id and codec (name and media kind). */
  datatype Track = Track(id: string, codecName: string, codecType: int)

  /** A sample returned by samplebuilder's PopWithTimestamp, with its timestamp. */
  datatype Popped = Popped(data: seq<byte>, timestamp: uint32)

  /** The Sample the Builder hands to its elements. */
  datatype Sample = Sample(kind: int, sequenceNumber: uint16, timestamp: uint32, payload: seq<byte>, trackId: string)

  /** An attached element and a registered stop handler, by identity. */
  datatype Element = Element(id: nat)
  datatype Handler = Handler(id: nat)

  /** A call the Builder makes on a collaborator; `ok` is false when Write returned an error. */
  datatype Event =
    | Closed(element: Element)
    | Wrote(element: Element, sample: Sample, ok: bool)
    | HandlerCalled(handler: Handler)

  /** Outcome of track.ReadRTP: a packet, io.EOF, or any other error. */
  datatype ReadResult = Packet | Eof | ReadFailed

  datatype State = State(
    track: Track,
    stopped: bool,
    handler: Option<Handler>,
    elements: seq<Element>,
    sequence: uint16,
    out: seq<Sample>,
    outClosed: bool,
    emitted: seq<Sample>,
    dequeued: nat,
    log: seq<Event>)

  /** The elements closed in `log`, in call order. */
  function Closes(log: seq<Event>): seq<Element>
  {
    if log == [] then []
    else (if log[0].Closed? then [log[0].element] else []) + Closes(log[1..])
  }

  /** The invariant every reachable state keeps. */
  ghost predicate Inv(s: State)
  {
    // the queue is closed exactly when the Builder is stopped
    && s.outClosed == s.stopped
    && |s.out| <= MaxSize
    // the queue holds the emitted samples the dispatch loop has not taken, oldest first
    && s.dequeued + |s.out| == |s.emitted|
    && s.out == s.emitted[s.dequeued..]
    // the k-th sample ever emitted is numbered k modulo 2^16, and the counter is the next number
    && s.sequence as int == |s.emitted| % 0x1_0000
    && (forall k :: 0 <= k < |s.emitted| ==> s.emitted[k].sequenceNumber as int == k % 0x1_0000)
    && (forall k :: 0 <= k < |s.emitted| ==> s.emitted[k].trackId == s.track.id && s.emitted[k].kind == s.track.codecType)
    // before the stop only writes happen; no write follows a close or the handler call
    && (!s.stopped ==> forall i :: 0 <= i < |s.log| ==> s.log[i].Wrote?)
    && (forall i, j :: 0 <= i < j < |s.log| && !s.log[i].Wrote? ==> !s.log[j].Wrote?)
    // the handler call, if any, is the last call made
    && (forall i :: 0 <= i < |s.log| && s.log[i].HandlerCalled? ==> i == |s.log| - 1)
    // the i-th close is the close of the i-th attached element
    && Closes(s.log) <= s.elements
    // only samples already taken from the queue are written, and only to attached elements
    && (forall i :: 0 <= i < |s.log| && s.log[i].Wrote? ==> s.log[i].sample in s.emitted[..s.dequeued])
    && (forall i :: 0 <= i < |s.log| && s.log[i].Wrote? ==> s.log[i].element in s.elements)
  }

  /** A freshly created Builder (NewBuilder, before its goroutines run). */
  function Init(track: Track): State
  {
    State(track, false, None, [], 0, [], false, [], 0, [])
  }

  /** AttachElement: append under the lock; nothing checks `stopped`. */
  function Attach(s: State, e: Element): State
  {
    s.(elements := s.elements + [e])
  }

  /** OnStop: replace the handler (Go allows a nil func, hence the Option). */
  function SetOnStop(s: State, f: Option<Handler>): State
  {
    s.(handler := f)
  }

  function CloseEvents(es: seq<Element>): seq<Event>
  {
    if es == [] then [] else [Closed(es[0])] + CloseEvents(es[1..])
  }

  function HandlerEvents(f: Option<Handler>): seq<Event>
  {
    if f.Some? then [HandlerCalled(f.value)] else []
  }

  /**
   * stop: a no-op once stopped; otherwise set the flag, close every element
   * in attachment order, call the handler if set, and close `out`. Closing an
   * already closed channel panics in Go, hence the precondition.
   */
  function Stop(s: State): State
    requires s.stopped || !s.outClosed
  {
    if s.stopped then s
    else s.(stopped := true,
            log := s.log + CloseEvents(s.elements) + HandlerEvents(s.handler),
            outClosed := true)
  }

  /** What one pop-and-check iteration of build's inner loop did. */
  datatype EmitOutcome =
    | Halted    // `stopped` was observed: build returns
    | Drained   // the pop was nil: back to reading packets
    | Enqueued  // a sample was sent to `out` and the counter advanced

  function MakeSample(s: State, p: Popped): Sample
  {
    Sample(s.track.codecType, s.sequence, p.timestamp, p.data, s.track.id)
  }

  /**
   * Room to enqueue n more samples: sending on a closed channel panics and a
   * full one blocks, which the model does not take as a step.
   */
  predicate CanSend(s: State, n: nat)
  {
    s.stopped || (!s.outClosed && |s.out| + n <= MaxSize)
  }

  /** One iteration of build's inner loop, given what PopWithTimestamp returned. */
  function Emit(s: State, p: Option<Popped>): (State, EmitOutcome)
    requires p.None? || CanSend(s, 1)
  {
    if s.stopped then (s, Halted)
    else if p.None? then (s, Drained)
    else
      var sample := MakeSample(s, p.value);
      (s.(out := s.out + [sample], emitted := s.emitted + [sample], sequence := Next(s.sequence)), Enqueued)
  }

  /** PopWithTimestamp's results up to the first nil: the samples one Push made ready. */
  function Ready(pops: seq<Option<Popped>>): seq<Popped>
  {
    if pops == [] || pops[0].None? then [] else [pops[0].value] + Ready(pops[1..])
  }

  /**
   * build's inner loop over the pops that follow one Push; running out of
   * pops counts as the nil pop. The boolean is false when build returns.
   */
  function Drain(s: State, pops: seq<Option<Popped>>): (State, bool)
    requires CanSend(s, |Ready(pops)|)
    decreases |pops|
  {
    if pops == [] then (s, true)
    else
      var (s', o) := Emit(s, pops[0]);
      match o
      case Halted => (s', false)
      case Drained => (s', true)
      case Enqueued => Drain(s', pops[1..])
  }

  /**
   * One iteration of build's outer loop: check `stopped`, read, and on a
   * packet drain the sample builder. The boolean is false when build returns.
   */
  function Ingest(s: State, r: ReadResult, pops: seq<Option<Popped>>): (State, bool)
    requires CanSend(s, |Ready(pops)|)
  {
    if s.stopped then (s, false)
    else
      match r
      case Eof => (Stop(s), false)
      case ReadFailed => (s, true)
      case Packet => Drain(s, pops)
  }

  function WriteEvents(es: seq<Element>, sample: Sample, oks: seq<bool>): seq<Event>
    requires |oks| == |es|
  {
    if es == [] then [] else [Wrote(es[0], sample, oks[0])] + WriteEvents(es[1..], sample, oks[1..])
  }

  /**
   * One iteration of forward: take the oldest queued sample (a closed, empty
   * channel yields nil), return if stopped, else write it to every element in
   * attachment order; `oks` are the Write results, which are only logged.
   */
  function Forward(s: State, oks: seq<bool>): (State, bool)
    requires s.out != [] || s.stopped
    requires |oks| == |s.elements|
  {
    var taken := if s.out == [] then s else s.(out := s.out[1..], dequeued := s.dequeued + 1);
    if s.stopped then (taken, false)
    else (taken.(log := s.log + WriteEvents(s.elements, s.out[0], oks)), true)
  }
}
