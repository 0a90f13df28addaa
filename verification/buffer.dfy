/**
 The event buffer of the sink as a sequential state machine. `Emit` appends an
 event and hands the whole buffer off as one batch once it holds
 `bulk_actions` events; the periodic `flush` hands off whatever is buffered;
 a worker takes the oldest handed-off batch and writes it; at shutdown the
 drain writes the remaining buffer and every batch still queued.

 The mutex of the source only serialises these steps, and the dispatch
 channel is modelled as a plain FIFO queue.
 */
module Buffer {

  /** `buffer`: events not yet handed off; `queue`: batches handed off and not
      yet taken (the dispatch channel); `written`: batches passed to a writer,
      in the order they were passed. */
  datatype Sink<T> = Sink(buffer: seq<T>, queue: seq<seq<T>>, written: seq<seq<T>>)

  function Init<T>(): Sink<T> {
    Sink([], [], [])
  }

  /** The batches laid end to end. */
  function Flatten<T>(bs: seq<seq<T>>): seq<T> {
    if |bs| == 0 then [] else Flatten(bs[..|bs| - 1]) + bs[|bs| - 1]
  }

  lemma {:induction false} FlattenAppend<T>(a: seq<seq<T>>, b: seq<seq<T>>)
    ensures Flatten(a + b) == Flatten(a) + Flatten(b)
    decreases |b|
  {
    if |b| == 0 {
      assert a + b == a;
    } else {
      assert (a + b)[..|a + b| - 1] == a + b[..|b| - 1];
      FlattenAppend(a, b[..|b| - 1]);
    }
  }

  /** Every event the sink holds, in hand-off order: written batches, queued
      batches, then the buffer. */
  function Contents<T>(s: Sink<T>): seq<T> {
    Flatten(s.written) + Flatten(s.queue) + s.buffer
  }

  predicate NonEmptyBatches<T>(bs: seq<seq<T>>) {
    forall k :: 0 <= k < |bs| ==> |bs[k]| > 0
  }

  /** `Emit`: append, then hand off the whole buffer once it holds at least
      `bulk` events. */
  function Emit<T>(s: Sink<T>, e: T, bulk: nat): (r: Sink<T>)
    ensures Contents(r) == Contents(s) + [e]
    ensures r.written == s.written
    ensures |s.buffer| + 1 < bulk ==> r.buffer == s.buffer + [e] && r.queue == s.queue
    ensures |s.buffer| + 1 >= bulk ==> r.buffer == [] && r.queue == s.queue + [s.buffer + [e]]
    ensures bulk > 0 && |s.buffer| < bulk ==> |r.buffer| < bulk
    ensures bulk > 0 && |s.buffer| < bulk && |r.queue| > |s.queue| ==> |r.queue[|r.queue| - 1]| == bulk
    ensures NonEmptyBatches(s.queue) ==> NonEmptyBatches(r.queue)
  {
    var b := s.buffer + [e];
    if |b| < bulk then
      s.(buffer := b)
    else
      FlattenAppend(s.queue, [b]);
      assert Flatten([b]) == b by { assert [b][..0] == []; }
      Sink([], s.queue + [b], s.written)
  }

  /** The periodic `flush`: a no-op on an empty buffer, otherwise the whole
      buffer becomes one batch. */
  function Flush<T>(s: Sink<T>): (r: Sink<T>)
    ensures Contents(r) == Contents(s)
    ensures r.written == s.written && r.buffer == []
    ensures |s.buffer| == 0 ==> r == s
    ensures |s.buffer| > 0 ==> r.queue == s.queue + [s.buffer]
    ensures NonEmptyBatches(s.queue) ==> NonEmptyBatches(r.queue)
  {
    if |s.buffer| > 0 then
      FlattenAppend(s.queue, [s.buffer]);
      assert Flatten([s.buffer]) == s.buffer by { assert [s.buffer][..0] == []; }
      Sink([], s.queue + [s.buffer], s.written)
    else
      s
  }

  /** A worker receives the oldest queued batch and writes it. */
  function Take<T>(s: Sink<T>): (r: Sink<T>)
    requires |s.queue| > 0
    ensures Contents(r) == Contents(s)
    ensures r.buffer == s.buffer
    ensures r.written == s.written + [s.queue[0]] && r.queue == s.queue[1..]
  {
    FlattenAppend(s.written, [s.queue[0]]);
    FlattenAppend([s.queue[0]], s.queue[1..]);
    assert s.queue == [s.queue[0]] + s.queue[1..];
    assert Flatten([s.queue[0]]) == s.queue[0] by { assert [s.queue[0]][..0] == []; }
    Sink(s.buffer, s.queue[1..], s.written + [s.queue[0]])
  }

  /** The drain of `awaitclose`: a non-empty buffer is written as one batch,
      then every queued batch is taken and written, leaving nothing behind. */
  function Drain<T>(s: Sink<T>): (r: Sink<T>)
    ensures r.buffer == [] && r.queue == []
    ensures |s.buffer| > 0 ==> r.written == s.written + [s.buffer] + s.queue
    ensures |s.buffer| == 0 ==> r.written == s.written + s.queue
    ensures multiset(Flatten(r.written)) == multiset(Contents(s))
  {
    var tail := if |s.buffer| > 0 then [s.buffer] + s.queue else s.queue;
    FlattenAppend(s.written, tail);
    if |s.buffer| > 0 then
      FlattenAppend([s.buffer], s.queue);
      assert Flatten([s.buffer]) == s.buffer by { assert [s.buffer][..0] == []; }
      Sink([], [], s.written + tail)
    else
      Sink([], [], s.written + tail)
  }

  /** One serialised step of normal operation. */
  datatype Step<T> = EmitStep(e: T) | Tick | Work

  function Apply<T>(s: Sink<T>, st: Step<T>, bulk: nat): Sink<T> {
    match st
    case EmitStep(e) => Emit(s, e, bulk)
    case Tick => Flush(s)
    case Work => if |s.queue| > 0 then Take(s) else s
  }

  /** The state after a run of steps from the empty sink. */
  function Run<T>(steps: seq<Step<T>>, bulk: nat): Sink<T>
    decreases |steps|
  {
    if |steps| == 0 then Init()
    else Apply(Run(steps[..|steps| - 1], bulk), steps[|steps| - 1], bulk)
  }

  /** The events a run submits, in submission order. */
  function Submitted<T>(steps: seq<Step<T>>): seq<T>
    decreases |steps|
  {
    if |steps| == 0 then []
    else Submitted(steps[..|steps| - 1]) + (if steps[|steps| - 1].EmitStep? then [steps[|steps| - 1].e] else [])
  }

  /** What holds between calls. */
  ghost predicate Invariant<T>(s: Sink<T>, submitted: seq<T>, bulk: nat) {
    && Contents(s) == submitted
    && NonEmptyBatches(s.queue)
    && NonEmptyBatches(s.written)
    && (bulk > 0 ==> |s.buffer| < bulk)
    && (bulk == 0 ==> s.buffer == [])
  }

  /** Every run keeps the invariant: written batches, queued batches and the
      buffer, laid end to end, are exactly the submitted events in order
      (nothing duplicated, nothing dropped), and the buffer stays below
      `bulk_actions`. */
  lemma {:induction false} RunInvariant<T>(steps: seq<Step<T>>, bulk: nat)
    ensures Invariant(Run(steps, bulk), Submitted(steps), bulk)
    decreases |steps|
  {
    if |steps| > 0 {
      RunInvariant(steps[..|steps| - 1], bulk);
    }
  }

  /** With `bulk_actions` at least 1, every batch `Emit` hands off during a run
      holds exactly `bulk_actions` events; with `bulk_actions` 0 every event
      is handed off alone. */
  lemma EmitBatchSize<T>(steps: seq<Step<T>>, e: T, bulk: nat)
    ensures var s := Run(steps, bulk);
      var r := Emit(s, e, bulk);
      |r.queue| > |s.queue| ==> |r.queue[|r.queue| - 1]| == (if bulk > 0 then bulk else 1)
  {
    RunInvariant(steps, bulk);
  }

  /** Shutdown after any run writes every submitted event exactly once and
      leaves buffer and queue empty. */
  lemma ShutdownWritesAll<T>(steps: seq<Step<T>>, bulk: nat)
    ensures Drain(Run(steps, bulk)).buffer == [] && Drain(Run(steps, bulk)).queue == []
    ensures multiset(Flatten(Drain(Run(steps, bulk)).written)) == multiset(Submitted(steps))
  {
    RunInvariant(steps, bulk);
  }

  /** Capacity 2: two events make one batch of two; a third one waits until
      the next tick and is then handed off alone. */
  lemma CapacityScenario<T>(a: T, b: T, c: T)
    ensures Emit(Emit(Init(), a, 2), b, 2) == Sink([], [[a, b]], [])
    ensures Emit(Emit(Emit(Init(), a, 2), b, 2), c, 2) == Sink([c], [[a, b]], [])
    ensures Flush(Emit(Emit(Emit(Init(), a, 2), b, 2), c, 2)).queue == [[a, b], [c]]
  {
    assert Emit(Init(), a, 2).buffer == [a];
    assert [a] + [b] == [a, b];
  }

  /** Capacity 100 with five events buffered at shutdown: the drain writes all
      five as one batch. */
  lemma ShutdownScenario<T>(e1: T, e2: T, e3: T, e4: T, e5: T)
    ensures Drain(Emit(Emit(Emit(Emit(Emit(Init(), e1, 100), e2, 100), e3, 100), e4, 100), e5, 100)).written
      == [[e1, e2, e3, e4, e5]]
  {
    var s1 := Emit(Init(), e1, 100);
    assert s1 == Sink([e1], [], []);
    var s2 := Emit(s1, e2, 100);
    assert s2 == Sink([e1, e2], [], []);
    var s3 := Emit(s2, e3, 100);
    assert s3 == Sink([e1, e2, e3], [], []);
    var s4 := Emit(s3, e4, 100);
    assert s4 == Sink([e1, e2, e3, e4], [], []);
    var s5 := Emit(s4, e5, 100);
    assert s5 == Sink([e1, e2, e3, e4, e5], [], []);
  }
}
