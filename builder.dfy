/**
 * The Builder of pkg/builder.go as a class. Every method is proved to
 * perform the matching step of Engine on Model(): the invariant Inv and the
 * lemmas of EngineProofs then apply to every Builder. AttachElement, OnStop,
 * Stop and Forward run under the Builder's mutex in the source; Emit and
 * Ingest model build, which reads `stopped` under the read lock and does
 * everything else outside it, so their atomicity is a modelling choice.
 * The build and forward goroutines become the methods Ingest (one iteration
 * of build's outer loop) and Forward (one iteration of forward's loop),
 * which a scheduler may call in any order whenever their preconditions hold.
 */
module Pipeline {
  import opened Wrappers
  import opened Codecs
  import opened Ints
  import opened Engine
  import EngineProofs

  class Builder {
    const track: Track
    /** Bound once at creation: what the sample builder depacketizes and partitions with. */
    const strategy: Strategy

    var stopped: bool
    var onStopHandler: Option<Handler>
    var elements: seq<Element>
    var sequence: uint16
    /** The buffered channel of capacity MaxSize, oldest sample first. */
    var out: seq<Sample>
    var outClosed: bool

    /** Every sample ever sent to `out`, how many forward has received, and the calls made on collaborators. */
    ghost var emitted: seq<Sample>
    ghost var dequeued: nat
    ghost var log: seq<Event>

    ghost function Model(): State
      reads this
    {
      State(track, stopped, onStopHandler, elements, sequence, out, outClosed, emitted, dequeued, log)
    }

    ghost predicate Valid()
      reads this
    {
      Inv(Model())
    }

    /**
     * NewBuilder: the strategy is chosen from the track's codec name (a
     * partition-head checker is installed exactly when Select yields one),
     * and the Builder starts running, unstopped, with nothing attached.
     * `maxLate` only configures the external sample builder.
     */
    constructor (track: Track, maxLate: uint16)
      ensures Valid() && Model() == Engine.Init(track)
      ensures this.track == track
      ensures strategy == Select(track.codecName)
    {
      this.track := track;
      strategy := Select(track.codecName);
      stopped := false;
      onStopHandler := None;
      elements := [];
      sequence := 0;
      out := [];
      outClosed := false;
      emitted := [];
      dequeued := 0;
      log := [];
      new;
      EngineProofs.InitInv(track);
    }

    /** AttachElement: `e` goes last, earlier elements keep their order, nothing else changes. */
    method AttachElement(e: Element)
      requires Valid()
      modifies this
      ensures Valid()
      ensures elements == old(elements) + [e]
      ensures Model() == Engine.Attach(old(Model()), e)
    {
      elements := elements + [e];
      assert Closes(log) <= old(elements) <= elements;
    }

    /** OnStop: the handler replaces any earlier one, so only the last registered can fire. */
    method OnStop(f: Option<Handler>)
      requires Valid()
      modifies this
      ensures Valid()
      ensures onStopHandler == f
      ensures Model() == Engine.SetOnStop(old(Model()), f)
    {
      onStopHandler := f;
    }

    /**
     * stop: idempotent teardown. The first call sets `stopped`, closes every
     * element in attachment order, calls the handler if set and closes `out`;
     * later calls change nothing.
     */
    method Stop()
      requires Valid()
      modifies this
      ensures Valid() && stopped && outClosed
      ensures old(stopped) ==> Model() == old(Model())
      ensures Model() == Engine.Stop(old(Model()))
    {
      if stopped {
        return;
      }
      // a second close of a Go channel panics; the flag rules it out
      assert !outClosed;
      stopped := true;
      ghost var calls := log;
      var i := 0;
      while i < |elements|
        invariant 0 <= i <= |elements|
        invariant calls == old(log) + CloseEvents(elements[..i])
        modifies {}
      {
        EngineProofs.CloseEventsSnoc(elements[..i], elements[i]);
        assert elements[..i + 1] == elements[..i] + [elements[i]];
        calls := calls + [Closed(elements[i])];
        i := i + 1;
      }
      assert elements[..i] == elements;
      assert calls == old(log) + CloseEvents(old(elements));
      calls := calls + HandlerEvents(onStopHandler);
      log := calls;
      outClosed := true;
      EngineProofs.StopPreservesInv(old(Model()));
    }

    /**
     * One iteration of build's inner loop after PopWithTimestamp returned
     * `p`: return if stopped, go back to reading on nil, else send the sample
     * stamped with the current counter to `out` and advance the counter.
     */
    method Emit(p: Option<Popped>) returns (o: EmitOutcome)
      requires Valid() && (p.None? || CanSend(Model(), 1))
      modifies this
      ensures Valid()
      ensures (Model(), o) == Engine.Emit(old(Model()), p)
    {
      if stopped {
        return Halted;
      }
      if p.None? {
        return Drained;
      }
      var sample := Sample(track.codecType, sequence, p.value.timestamp, p.value.data, track.id);
      out := out + [sample];
      emitted := emitted + [sample];
      sequence := Next(sequence);
      o := Enqueued;
      EngineProofs.EmitPreservesInv(old(Model()), p);
    }

    /**
     * One iteration of build's outer loop, given what ReadRTP returned and
     * what the following pops return. `more` is false when build returns:
     * when it finds the Builder stopped, or on io.EOF after stopping it.
     */
    method Ingest(r: ReadResult, pops: seq<Option<Popped>>) returns (more: bool)
      requires Valid() && CanSend(Model(), |Ready(pops)|)
      modifies this
      ensures Valid()
      ensures (Model(), more) == Engine.Ingest(old(Model()), r, pops)
    {
      if stopped {
        return false;
      }
      match r
      case Eof =>
        Stop();
        return false;
      case ReadFailed =>
        // logged; the loop reads again
        return true;
      case Packet =>
        var i := 0;
        while i < |pops|
          invariant 0 <= i <= |pops|
          invariant Valid() && CanSend(Model(), |Ready(pops[i..])|)
          invariant Engine.Drain(Model(), pops[i..]) == Engine.Drain(old(Model()), pops)
        {
          assert pops[i..][0] == pops[i] && pops[i..][1..] == pops[i + 1..];
          var o := Emit(pops[i]);
          if o == Halted {
            return false;
          }
          if o == Drained {
            return true;
          }
          i := i + 1;
        }
        return true;
    }

    /**
     * One iteration of forward: receive from `out` (nil once it is closed
     * and empty), return if stopped, else write the sample to each element
     * in attachment order; a failed Write is only logged.
     */
    method Forward(oks: seq<bool>) returns (more: bool)
      requires Valid() && (out != [] || stopped) && |oks| == |elements|
      modifies this
      ensures Valid()
      ensures (Model(), more) == Engine.Forward(old(Model()), oks)
    {
      ghost var next := Engine.Forward(Model(), oks);
      EngineProofs.ForwardPreservesInv(Model(), oks);
      var sample: Option<Sample> := None;
      if out != [] {
        sample := Some(out[0]);
        out := out[1..];
        dequeued := dequeued + 1;
      }
      var snapshot := elements;
      if stopped {
        assert Model() == next.0;
        return false;
      }
      ghost var calls := log;
      var i := 0;
      while i < |snapshot|
        invariant 0 <= i <= |snapshot|
        invariant calls == old(log) + WriteEvents(snapshot[..i], sample.value, oks[..i])
        modifies {}
      {
        EngineProofs.WriteEventsSnoc(snapshot[..i], snapshot[i], sample.value, oks[..i], oks[i]);
        assert snapshot[..i + 1] == snapshot[..i] + [snapshot[i]];
        assert oks[..i + 1] == oks[..i] + [oks[i]];
        var ok := oks[i];  // what e.Write returned; a failure is only logged
        calls := calls + [Wrote(snapshot[i], sample.value, ok)];
        i := i + 1;
      }
      assert snapshot[..i] == snapshot && oks[..i] == oks;
      assert sample.value == old(out)[0] && out == old(out)[1..] && snapshot == old(elements);
      log := calls;
      assert Model() == next.0;
      return true;
    }
  }
}
