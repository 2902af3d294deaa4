/**
 * What the Builder promises, proved about the step functions of Engine:
 * every step keeps Inv, teardown closes each attached element once and in
 * order before the handler, nothing happens after the stop, the ingest loop
 * numbers samples consecutively from 0 modulo 2^16, and dispatch writes the
 * oldest sample to every element in attachment order whatever Write returns.
 */
module EngineProofs {
  import opened Wrappers
  import opened Ints
  import opened Engine

  lemma {:induction false} CloseEventsAt(es: seq<Element>)
    ensures |CloseEvents(es)| == |es|
    ensures forall i :: 0 <= i < |es| ==> CloseEvents(es)[i] == Closed(es[i])
    ensures Closes(CloseEvents(es)) == es
  {
    if es != [] {
      CloseEventsAt(es[1..]);
      assert CloseEvents(es)[1..] == CloseEvents(es[1..]);
    }
  }

  lemma {:induction false} CloseEventsSnoc(es: seq<Element>, e: Element)
    ensures CloseEvents(es + [e]) == CloseEvents(es) + [Closed(e)]
  {
    if es == [] {
      assert es + [e] == [e];
    } else {
      assert (es + [e])[1..] == es[1..] + [e];
      CloseEventsSnoc(es[1..], e);
    }
  }

  lemma {:induction false} WriteEventsSnoc(es: seq<Element>, e: Element, sample: Sample, oks: seq<bool>, ok: bool)
    requires |oks| == |es|
    ensures WriteEvents(es + [e], sample, oks + [ok]) == WriteEvents(es, sample, oks) + [Wrote(e, sample, ok)]
  {
    if es == [] {
      assert es + [e] == [e] && oks + [ok] == [ok];
    } else {
      assert (es + [e])[1..] == es[1..] + [e];
      assert (oks + [ok])[1..] == oks[1..] + [ok];
      WriteEventsSnoc(es[1..], e, sample, oks[1..], ok);
    }
  }

  lemma {:induction false} ClosesAppend(a: seq<Event>, b: seq<Event>)
    ensures Closes(a + b) == Closes(a) + Closes(b)
  {
    if a == [] {
      assert a + b == b;
    } else {
      var head := if a[0].Closed? then [a[0].element] else [];
      assert (a + b)[0] == a[0];
      assert (a + b)[1..] == a[1..] + b;
      ClosesAppend(a[1..], b);
      calc {
        Closes(a + b);
        head + Closes(a[1..] + b);
        head + (Closes(a[1..]) + Closes(b));
        (head + Closes(a[1..])) + Closes(b);
      }
    }
  }

  lemma {:induction false} ClosesOfWrites(log: seq<Event>)
    requires forall i :: 0 <= i < |log| ==> log[i].Wrote?
    ensures Closes(log) == []
  {
    if log != [] {
      ClosesOfWrites(log[1..]);
    }
  }

  /** Fan-out: one Write per element, in attachment order, none skipped whatever the results. */
  lemma {:induction false} WriteEventsAt(es: seq<Element>, sample: Sample, oks: seq<bool>)
    requires |oks| == |es|
    ensures |WriteEvents(es, sample, oks)| == |es|
    ensures forall i :: 0 <= i < |es| ==> WriteEvents(es, sample, oks)[i] == Wrote(es[i], sample, oks[i])
  {
    if es != [] {
      WriteEventsAt(es[1..], sample, oks[1..]);
      assert WriteEvents(es, sample, oks)[1..] == WriteEvents(es[1..], sample, oks[1..]);
    }
  }

  lemma InitInv(t: Track)
    ensures Inv(Init(t)) && !Init(t).stopped && Init(t).sequence == 0
    ensures Init(t).elements == [] && Init(t).handler == None && Init(t).log == []
  {
  }

  /**
   * The first stop closes exactly the attached elements, once each and in
   * attachment order, then calls the registered handler (if any) as the last
   * call, and a second stop changes nothing.
   */
  lemma StopClosesEachElementOnce(s: State)
    requires Inv(s) && !s.stopped
    ensures Stop(s).stopped && Stop(s).outClosed
    ensures Closes(Stop(s).log) == s.elements
    ensures |Stop(s).log| >= |s.log| + |s.elements|
    ensures forall i :: 0 <= i < |s.elements| ==> Stop(s).log[|s.log| + i] == Closed(s.elements[i])
    ensures s.handler.Some? <==> |Stop(s).log| == |s.log| + |s.elements| + 1
    ensures s.handler.Some? ==> Stop(s).log[|Stop(s).log| - 1] == HandlerCalled(s.handler.value)
    ensures Stop(Stop(s)) == Stop(s)
  {
    CloseEventsAt(s.elements);
    ClosesOfWrites(s.log);
    ClosesAppend(s.log, CloseEvents(s.elements));
    ClosesAppend(s.log + CloseEvents(s.elements), HandlerEvents(s.handler));
  }

  /** The calls the first stop appends come after the writes and contain none. */
  lemma TeardownLog(log: seq<Event>, es: seq<Element>, h: Option<Handler>)
    requires forall i :: 0 <= i < |log| ==> log[i].Wrote?
    ensures var l := log + CloseEvents(es) + HandlerEvents(h);
            && (forall i :: 0 <= i < |l| && l[i].Wrote? ==> i < |log| && l[i] == log[i])
            && (forall i, j :: 0 <= i < j < |l| && !l[i].Wrote? ==> !l[j].Wrote?)
            && (forall i :: 0 <= i < |l| && l[i].HandlerCalled? ==> i == |l| - 1)
  {
    CloseEventsAt(es);
    var l := log + CloseEvents(es) + HandlerEvents(h);
    var n := |log| + |es|;
    forall i | |log| <= i < n
      ensures l[i].Closed?
    {
      assert l[i] == CloseEvents(es)[i - |log|];
    }
    forall i | n <= i < |l|
      ensures l[i].HandlerCalled? && i == |l| - 1
    {
      assert l[i] == HandlerEvents(h)[i - n];
    }
  }

  lemma StopPreservesInv(s: State)
    requires Inv(s)
    ensures Inv(Stop(s))
  {
    if !s.stopped {
      StopClosesEachElementOnce(s);
      TeardownLog(s.log, s.elements, s.handler);
    }
  }

  lemma EmitPreservesInv(s: State, p: Option<Popped>)
    requires Inv(s) && (p.None? || CanSend(s, 1))
    ensures Inv(Emit(s, p).0)
    ensures Emit(s, p).0.stopped == s.stopped && Emit(s, p).0.log == s.log
    ensures Emit(s, p).0.elements == s.elements && Emit(s, p).0.track == s.track
    ensures s.emitted <= Emit(s, p).0.emitted && Emit(s, p).0.dequeued == s.dequeued
  {
    if !s.stopped && p.Some? {
      var r := Emit(s, p).0;
      assert r.emitted == s.emitted + [MakeSample(s, p.value)];
      assert r.out == r.emitted[r.dequeued..];
      assert r.emitted[..r.dequeued] == s.emitted[..s.dequeued];
    }
  }

  lemma {:induction false} DrainPreservesInv(s: State, pops: seq<Option<Popped>>)
    requires Inv(s) && CanSend(s, |Ready(pops)|)
    ensures Inv(Drain(s, pops).0)
    ensures Drain(s, pops).0.stopped == s.stopped && Drain(s, pops).0.log == s.log
    ensures Drain(s, pops).0.track == s.track && Drain(s, pops).0.elements == s.elements
    ensures s.emitted <= Drain(s, pops).0.emitted && Drain(s, pops).0.dequeued == s.dequeued
    decreases |pops|
  {
    if pops != [] {
      EmitPreservesInv(s, pops[0]);
      var (s', o) := Emit(s, pops[0]);
      if o == Enqueued {
        DrainPreservesInv(s', pops[1..]);
      }
    }
  }

  lemma IngestPreservesInv(s: State, r: ReadResult, pops: seq<Option<Popped>>)
    requires Inv(s) && CanSend(s, |Ready(pops)|)
    ensures Inv(Ingest(s, r, pops).0) && Ingest(s, r, pops).0.track == s.track
  {
    if !s.stopped {
      match r
      case Eof => StopPreservesInv(s);
      case ReadFailed =>
      case Packet => DrainPreservesInv(s, pops);
    }
  }

  lemma ForwardPreservesInv(s: State, oks: seq<bool>)
    requires Inv(s) && (s.out != [] || s.stopped) && |oks| == |s.elements|
    ensures Inv(Forward(s, oks).0)
  {
    var r := Forward(s, oks).0;
    if s.out != [] {
      assert s.out[0] == s.emitted[s.dequeued];
      assert r.out == r.emitted[r.dequeued..];
      assert s.emitted[..s.dequeued] <= r.emitted[..r.dequeued];
    }
    if !s.stopped {
      var w := WriteEvents(s.elements, s.out[0], oks);
      WriteEventsAt(s.elements, s.out[0], oks);
      assert r.log == s.log + w;
      assert s.out[0] in r.emitted[..r.dequeued];
      ClosesOfWrites(r.log);
    }
  }

  /** Reference numbering: the samples made from `ready`, numbered first, first + 1, ... modulo 2^16. */
  function Stamp(t: Track, first: nat, ready: seq<Popped>): seq<Sample>
    decreases |ready|
  {
    if ready == [] then []
    else [Sample(t.codecType, (first % 0x1_0000) as uint16, ready[0].timestamp, ready[0].data, t.id)]
         + Stamp(t, first + 1, ready[1..])
  }

  /**
   * Draining after a packet enqueues exactly the samples before the first nil
   * pop, in pop order, each with the counter's current value, and leaves the
   * counter at the number of samples ever emitted, modulo 2^16.
   */
  lemma {:induction false} DrainEnqueuesReady(s: State, pops: seq<Option<Popped>>)
    requires !s.stopped && CanSend(s, |Ready(pops)|)
    requires s.sequence as int == |s.emitted| % 0x1_0000
    ensures Drain(s, pops).1
    ensures var made := Stamp(s.track, |s.emitted|, Ready(pops));
            Drain(s, pops).0 == s.(out := s.out + made, emitted := s.emitted + made,
                                   sequence := ((|s.emitted| + |made|) % 0x1_0000) as uint16)
    decreases |pops|
  {
    if pops != [] && pops[0].Some? {
      var s' := Emit(s, pops[0]).0;
      DrainEnqueuesReady(s', pops[1..]);
      var made := Stamp(s.track, |s.emitted|, Ready(pops));
      assert made == [MakeSample(s, pops[0].value)] + Stamp(s.track, |s.emitted| + 1, Ready(pops[1..]));
      assert s.out + made == s'.out + Stamp(s.track, |s.emitted| + 1, Ready(pops[1..]));
      assert s.emitted + made == s'.emitted + Stamp(s.track, |s.emitted| + 1, Ready(pops[1..]));
    }
  }

  /**
   * A read of io.EOF stops the Builder and ends build; any other read error
   * changes nothing and build goes on; a stopped Builder's build returns
   * without reading.
   */
  lemma IngestReadOutcomes(s: State, pops: seq<Option<Popped>>)
    requires Inv(s) && CanSend(s, |Ready(pops)|)
    ensures !s.stopped ==> Ingest(s, Eof, pops) == (Stop(s), false) && Stop(s).stopped
    ensures !s.stopped ==> Ingest(s, ReadFailed, pops) == (s, true)
    ensures s.stopped ==> forall r :: Ingest(s, r, pops) == (s, false)
    ensures !s.stopped ==> Ingest(s, Packet, pops).1
  {
    if !s.stopped {
      DrainEnqueuesReady(s, pops);
    }
  }

  /**
   * Dispatch delivers in emission order: the k-th sample taken from the queue
   * is the k-th ever emitted, numbered k modulo 2^16, and it is written to
   * every element attached at that moment, in attachment order.
   */
  lemma ForwardDeliversOldest(s: State, oks: seq<bool>)
    requires Inv(s) && !s.stopped && s.out != [] && |oks| == |s.elements|
    ensures var r := Forward(s, oks);
            && r.1
            && r.0.dequeued == s.dequeued + 1
            && |r.0.log| == |s.log| + |s.elements|
            && r.0.log[..|s.log|] == s.log
            && (forall i :: 0 <= i < |s.elements| ==>
                  r.0.log[|s.log| + i] == Wrote(s.elements[i], s.emitted[s.dequeued], oks[i]))
    ensures s.emitted[s.dequeued].sequenceNumber as int == s.dequeued % 0x1_0000
  {
    WriteEventsAt(s.elements, s.out[0], oks);
    assert s.out[0] == s.emitted[s.dequeued];
  }

  /**
   * dispatch reads the element list when it takes a sample, not when the
   * sample was emitted: an element attached while a sample waits in the
   * queue still receives that sample.
   */
  lemma LateElementGetsQueuedSample(s: State, e: Element, oks: seq<bool>)
    requires Inv(s) && !s.stopped && s.out != [] && |oks| == |s.elements| + 1
    ensures var r := Forward(Attach(s, e), oks).0;
            Wrote(e, s.out[0], oks[|s.elements|]) in r.log[|s.log|..]
  {
    var t := Attach(s, e);
    WriteEventsAt(t.elements, t.out[0], oks);
    assert Forward(t, oks).0.log[|s.log|..] == WriteEvents(t.elements, t.out[0], oks);
    assert WriteEvents(t.elements, t.out[0], oks)[|s.elements|] == Wrote(e, s.out[0], oks[|s.elements|]);
  }

  /** A scheduler's choice: one atomic step of a caller, of build, or of forward. */
  datatype Step =
    | AttachStep(element: Element)
    | OnStopStep(handler: Option<Handler>)
    | StopStep
    | IngestStep(read: ReadResult, pops: seq<Option<Popped>>)
    | EmitStep(pop: Option<Popped>)
    | ForwardStep(oks: seq<bool>)

  /** A step can be taken: ingest has queue room, dispatch has a sample or sees the closed queue. */
  predicate Enabled(s: State, st: Step)
  {
    match st
    case IngestStep(_, pops) => CanSend(s, |Ready(pops)|)
    case EmitStep(p) => p.None? || CanSend(s, 1)
    case ForwardStep(oks) => (s.out != [] || s.stopped) && |oks| == |s.elements|
    case _ => true
  }

  /** Every step keeps the invariant. */
  function Apply(s: State, st: Step): (r: State)
    requires Inv(s) && Enabled(s, st)
    ensures Inv(r) && r.track == s.track
  {
    match st
    case AttachStep(e) => Attach(s, e)
    case OnStopStep(f) => SetOnStop(s, f)
    case StopStep => StopPreservesInv(s); Stop(s)
    case IngestStep(rd, pops) => IngestPreservesInv(s, rd, pops); Ingest(s, rd, pops).0
    case EmitStep(p) => EmitPreservesInv(s, p); Emit(s, p).0
    case ForwardStep(oks) => ForwardPreservesInv(s, oks); Forward(s, oks).0
  }

  /** A sequence of modelled steps, a disabled step being one the scheduler does not take. */
  function Run(s: State, steps: seq<Step>): (r: State)
    requires Inv(s)
    ensures Inv(r)
    ensures r.track == s.track
    ensures s.stopped ==> r.stopped
    decreases |steps|
  {
    if steps == [] then s
    else
      var next := if Enabled(s, steps[0]) then Apply(s, steps[0]) else s;
      Run(next, steps[1..])
  }

  lemma StepAfterStop(s: State, st: Step)
    requires Inv(s) && s.stopped && Enabled(s, st)
    ensures Apply(s, st).stopped
    ensures Apply(s, st).log == s.log && Apply(s, st).emitted == s.emitted
  {
  }

  /**
   * `stopped` never reverts, and once it is set no element is written or
   * closed again, the handler is not called again and no sample is enqueued,
   * whatever steps follow.
   */
  lemma {:induction false} NothingAfterStop(s: State, steps: seq<Step>)
    requires Inv(s) && s.stopped
    ensures Run(s, steps).stopped
    ensures Run(s, steps).log == s.log && Run(s, steps).emitted == s.emitted
    decreases |steps|
  {
    if steps != [] {
      var next := if Enabled(s, steps[0]) then Apply(s, steps[0]) else s;
      if Enabled(s, steps[0]) {
        StepAfterStop(s, steps[0]);
      }
      NothingAfterStop(next, steps[1..]);
    }
  }

  /**
   * AttachElement does not check `stopped`: an element attached after the
   * stop is kept in the list but, whatever steps follow, is never written
   * to and never closed.
   */
  lemma AttachAfterStopNeverClosed(s: State, e: Element, steps: seq<Step>)
    requires Inv(s) && s.stopped
    ensures var r := Run(Attach(s, e), steps);
            && s.elements + [e] <= r.elements
            && r.log == s.log
            && |Closes(r.log)| <= |s.elements|
  {
    var t := Apply(s, AttachStep(e));
    NothingAfterStop(t, steps);
    ElementsOnlyGrow(t, steps);
    assert Closes(s.log) <= s.elements;
  }

  /** No step removes or reorders attached elements. */
  lemma {:induction false} ElementsOnlyGrow(s: State, steps: seq<Step>)
    requires Inv(s)
    ensures s.elements <= Run(s, steps).elements
    decreases |steps|
  {
    if steps != [] {
      var next := if Enabled(s, steps[0]) then Apply(s, steps[0]) else s;
      if Enabled(s, steps[0]) && steps[0].IngestStep? && !s.stopped && steps[0].read.Packet? {
        DrainPreservesInv(s, steps[0].pops);
      }
      if Enabled(s, steps[0]) && steps[0].EmitStep? {
        EmitPreservesInv(s, steps[0].pop);
      }
      ElementsOnlyGrow(next, steps[1..]);
    }
  }

  /**
   * One step only appends to the log and to the emitted samples, never
   * gives a sample back to the queue, and every Write it makes is of a
   * sample it took from the queue itself.
   */
  lemma StepWritesOnlyWhatItTakes(t: State, st: Step)
    requires Inv(t) && Enabled(t, st)
    ensures var n := Apply(t, st);
            && t.log <= n.log && t.emitted <= n.emitted && t.dequeued <= n.dequeued
            && (forall i :: |t.log| <= i < |n.log| && n.log[i].Wrote? ==>
                  exists k :: t.dequeued <= k < n.dequeued && n.log[i].sample == n.emitted[k])
  {
    var n := Apply(t, st);
    match st
    case AttachStep(_) =>
    case OnStopStep(_) =>
    case StopStep =>
      if !t.stopped {
        TeardownLog(t.log, t.elements, t.handler);
      }
    case IngestStep(rd, pops) =>
      if !t.stopped {
        match rd
        case Eof => TeardownLog(t.log, t.elements, t.handler);
        case ReadFailed =>
        case Packet => DrainPreservesInv(t, pops);
      }
    case EmitStep(p) => EmitPreservesInv(t, p);
    case ForwardStep(oks) =>
      if !t.stopped {
        WriteEventsAt(t.elements, t.out[0], oks);
        assert t.out[0] == t.emitted[t.dequeued];
        forall i | |t.log| <= i < |n.log| && n.log[i].Wrote?
          ensures exists k :: t.dequeued <= k < n.dequeued && n.log[i].sample == n.emitted[k]
        {
          assert n.log[i] == WriteEvents(t.elements, t.out[0], oks)[i - |t.log|];
        }
      }
  }

  /**
   * Over any run from `t`, every Write made after `t` is of a sample that
   * was still queued (or not yet emitted) at `t`.
   */
  lemma {:induction false} WritesAfterAreOfLaterSamples(t: State, steps: seq<Step>)
    requires Inv(t)
    ensures var r := Run(t, steps);
            && t.log <= r.log && t.emitted <= r.emitted && t.dequeued <= r.dequeued
            && (forall i :: |t.log| <= i < |r.log| && r.log[i].Wrote? ==>
                  exists k :: t.dequeued <= k < r.dequeued && r.log[i].sample == r.emitted[k])
    decreases |steps|
  {
    if steps != [] {
      var next := if Enabled(t, steps[0]) then Apply(t, steps[0]) else t;
      if Enabled(t, steps[0]) {
        StepWritesOnlyWhatItTakes(t, steps[0]);
      }
      WritesAfterAreOfLaterSamples(next, steps[1..]);
      var r := Run(t, steps);
      assert r == Run(next, steps[1..]);
      forall i | |t.log| <= i < |r.log| && r.log[i].Wrote?
        ensures exists k :: t.dequeued <= k < r.dequeued && r.log[i].sample == r.emitted[k]
      {
        if i < |next.log| {
          assert r.log[i] == next.log[i];
          var k :| t.dequeued <= k < next.dequeued && next.log[i].sample == next.emitted[k];
          assert r.emitted[k] == next.emitted[k];
        } else {
          var k :| next.dequeued <= k < r.dequeued && r.log[i].sample == r.emitted[k];
        }
      }
    }
  }

  /**
   * An element attached after `dequeued` samples were taken from the queue
   * never receives any of them: each sample written to it is one emitted
   * later than those.
   */
  lemma LateElementMissesEarlierSamples(s: State, e: Element, steps: seq<Step>)
    requires Inv(s) && e !in s.elements
    ensures var r := Run(Attach(s, e), steps);
            forall i :: 0 <= i < |r.log| && r.log[i].Wrote? && r.log[i].element == e ==>
              exists k :: s.dequeued <= k < r.dequeued && r.log[i].sample == r.emitted[k]
  {
    var t := Apply(s, AttachStep(e));
    WritesAfterAreOfLaterSamples(t, steps);
  }

  /**
   * In every run of a Builder: no Write follows a Close, the handler is called
   * at most once and last, the i-th Close closes the i-th attached element, and
   * every written sample is numbered by its emission index modulo 2^16.
   */
  lemma RunSafety(t: Track, steps: seq<Step>)
    ensures var s := Run(Init(t), steps);
            && (forall i, j :: 0 <= i < j < |s.log| && s.log[i].Closed? ==> !s.log[j].Wrote?)
            && (forall i :: 0 <= i < |s.log| && s.log[i].HandlerCalled? ==> i == |s.log| - 1)
            && Closes(s.log) <= s.elements
            && (!s.stopped ==> Closes(s.log) == [])
            && (forall i :: 0 <= i < |s.log| && s.log[i].Wrote? ==>
                  exists k :: 0 <= k < s.dequeued && s.log[i].sample == s.emitted[k]
                              && s.log[i].sample.sequenceNumber as int == k % 0x1_0000)
  {
    InitInv(t);
    var s := Run(Init(t), steps);
    if !s.stopped {
      ClosesOfWrites(s.log);
    }
    forall i | 0 <= i < |s.log| && s.log[i].Wrote?
      ensures exists k :: 0 <= k < s.dequeued && s.log[i].sample == s.emitted[k]
                          && s.log[i].sample.sequenceNumber as int == k % 0x1_0000
    {
      var k :| 0 <= k < s.dequeued && s.emitted[..s.dequeued][k] == s.log[i].sample;
      assert s.emitted[k] == s.log[i].sample;
    }
  }
}
