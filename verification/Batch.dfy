/** pkg/dogstatsd/batch.go: samples collected into fixed-size batches. */
module Batch {
  import opened Enrich

  function Flatten<T>(bs: seq<seq<T>>): seq<T> {
    if bs == [] then [] else Flatten(bs[..|bs| - 1]) + bs[|bs| - 1]
  }

  /** All of `xs` in order, in batches that are full except for a last, non-empty one. */
  ghost predicate IsBatching<T>(bs: seq<seq<T>>, xs: seq<T>, size: nat) {
    && Flatten(bs) == xs
    && (forall i :: 0 <= i < |bs| - 1 ==> |bs[i]| == size)
    && (bs != [] ==> 1 <= |bs[|bs| - 1]| <= size)
  }

  lemma {:induction false} FlattenFull<T>(bs: seq<seq<T>>, size: nat)
    requires forall i :: 0 <= i < |bs| ==> |bs[i]| == size
    ensures |Flatten(bs)| == |bs| * size
  {
    if bs != [] {
      var n := |bs| - 1;
      FlattenFull(bs[..n], size);
      assert n * size + size == |bs| * size;
    }
  }

  /** Samples and batch size leave no choice of batches. */
  lemma {:induction false} BatchingUnique<T>(a: seq<seq<T>>, b: seq<seq<T>>, xs: seq<T>, size: nat)
    requires size > 0 && IsBatching(a, xs, size) && IsBatching(b, xs, size)
    ensures a == b
  {
    SameCount(a, b, xs, size);
    if a != [] {
      var i := |a| - 1;
      FlattenFull(a[..i], size);
      FlattenFull(b[..i], size);
      var cut := |Flatten(a[..i])|;
      assert Flatten(a[..i]) == xs[..cut] == Flatten(b[..i]);
      assert a[i] == xs[cut..] == b[i];
      BatchingUnique(a[..i], b[..i], xs[..cut], size);
      assert a == a[..i] + [a[i]] && b == b[..i] + [b[i]];
    }
  }

  lemma SameCount<T>(a: seq<seq<T>>, b: seq<seq<T>>, xs: seq<T>, size: nat)
    requires size > 0 && IsBatching(a, xs, size) && IsBatching(b, xs, size)
    ensures |a| == |b|
  {
    CountBounds(a, xs, size);
    CountBounds(b, xs, size);
    if |a| < |b| {
      MoreBatches(|a|, |b| - 1, size);
    } else if |b| < |a| {
      MoreBatches(|b|, |a| - 1, size);
    }
  }

  lemma MoreBatches(few: nat, many: nat, size: nat)
    requires few <= many
    ensures few * size <= many * size
  {
  }

  lemma CountBounds<T>(bs: seq<seq<T>>, xs: seq<T>, size: nat)
    requires IsBatching(bs, xs, size)
    ensures bs == [] <==> xs == []
    ensures bs != [] ==> (|bs| - 1) * size < |xs| <= |bs| * size
  {
    if bs != [] {
      var i := |bs| - 1;
      FlattenFull(bs[..i], size);
      assert |xs| == i * size + |bs[i]|;
      assert |bs| * size == i * size + size;
    }
  }

  /** Enriched samples, events and service checks, each in order. */
  datatype Output = Output(
    samples: seq<Enriched>, events: seq<EnrichedEvent>, serviceChecks: seq<ServiceCheck>)
  {
    function Plus(more: Output): Output {
      Output(samples + more.samples, events + more.events, serviceChecks + more.serviceChecks)
    }
  }

  const NOTHING := Output([], [], [])

  lemma PlusAssociative(a: Output, b: Output, c: Output)
    ensures a.Plus(b).Plus(c) == a.Plus(b.Plus(c))
  {
    assert a.samples + b.samples + c.samples == a.samples + (b.samples + c.samples);
    assert a.events + b.events + c.events == a.events + (b.events + c.events);
    assert a.serviceChecks + b.serviceChecks + c.serviceChecks ==
           a.serviceChecks + (b.serviceChecks + c.serviceChecks);
  }

  lemma PlusNothing(a: Output)
    ensures a.Plus(NOTHING) == a == NOTHING.Plus(a)
  {
    assert a.samples + [] == a.samples == [] + a.samples;
    assert a.events + [] == a.events == [] + a.events;
    assert a.serviceChecks + [] == a.serviceChecks == [] + a.serviceChecks;
  }

  ghost function FlatMap<T>(f: T -> Output, xs: seq<T>): Output {
    if xs == [] then NOTHING else f(xs[0]).Plus(FlatMap(f, xs[1..]))
  }

  lemma FlatMapFirst<T>(f: T -> Output, held: Output, x: T, more: seq<T>)
    ensures held.Plus(FlatMap(f, [x] + more)) == held.Plus(f(x)).Plus(FlatMap(f, more))
  {
    assert ([x] + more)[0] == x && ([x] + more)[1..] == more;
    PlusAssociative(held, f(x), FlatMap(f, more));
  }

  lemma {:induction false} FlatMapConcat<T>(f: T -> Output, a: seq<T>, b: seq<T>)
    ensures FlatMap(f, a + b) == FlatMap(f, a).Plus(FlatMap(f, b))
  {
    if a == [] {
      assert a + b == b;
      PlusNothing(FlatMap(f, b));
    } else {
      FlatMapConcat(f, a[1..], b);
      assert (a + b)[0] == a[0] && (a + b)[1..] == a[1..] + b;
      PlusAssociative(f(a[0]), FlatMap(f, a[1..]), FlatMap(f, b));
    }
  }

  lemma {:induction false} FlatMapSame<S, T>(f: S -> Output, xs: seq<S>, g: T -> Output, ys: seq<T>)
    requires |xs| == |ys| && forall k :: 0 <= k < |xs| ==> f(xs[k]) == g(ys[k])
    ensures FlatMap(f, xs) == FlatMap(g, ys)
  {
    if xs != [] {
      FlatMapSame(f, xs[1..], g, ys[1..]);
    }
  }

  /** The channels went from `before` to `after` by receiving exactly `out`: samples batched, the rest in one piece. */
  ghost predicate Delivered(after: Channels, before: Channels, out: Output, size: nat) {
    && before.samples <= after.samples
    && IsBatching(after.samples[|before.samples|..], out.samples, size)
    && after.events == before.events + (if out.events == [] then [] else [out.events])
    && after.serviceChecks == before.serviceChecks + (if out.serviceChecks == [] then [] else [out.serviceChecks])
  }

  /** What the output channels received. */
  datatype Channels = Channels(
    samples: seq<seq<Enriched>>, events: seq<seq<EnrichedEvent>>, serviceChecks: seq<seq<ServiceCheck>>)

  class Batcher {
    const batchSize: nat
    var samples: array<Enriched>
    var samplesCount: nat
    var events: seq<EnrichedEvent>
    var serviceChecks: seq<ServiceCheck>

    // The output channels.
    var sentSamples: seq<seq<Enriched>>
    var sentEvents: seq<seq<EnrichedEvent>>
    var sentServiceChecks: seq<seq<ServiceCheck>>

    /** How many sample batches were sent when the batcher was last flushed. */
    ghost var flushed: nat

    ghost predicate Valid() reads this {
      && 1 <= batchSize == samples.Length && samplesCount <= batchSize
      && flushed <= |sentSamples|
      && (forall i :: flushed <= i < |sentSamples| ==> |sentSamples[i]| == batchSize)
      && (samplesCount == 0 ==> |sentSamples| == flushed)
    }

    /** The samples taken since the last flush. */
    ghost function Taken(): seq<Enriched>
      reads this, samples
      requires Valid()
    {
      Flatten(sentSamples[flushed..]) + samples[..samplesCount]
    }

    /** What was taken since the last flush and will have been sent by the next one. */
    ghost function Pending(): Output
      reads this, samples
      requires Valid()
    {
      Output(Taken(), events, serviceChecks)
    }

    /** What the channels had received when the batcher was last flushed. */
    ghost function SentBefore(): Channels
      reads this
      requires Valid()
    {
      Channels(sentSamples[..flushed], sentEvents, sentServiceChecks)
    }

    constructor (batchSize: nat)
      requires batchSize >= 1
      ensures Valid() && fresh(samples) && this.batchSize == batchSize
      ensures Pending() == NOTHING && SentBefore() == Channels([], [], [])
    {
      this.batchSize := batchSize;
      samples := new Enriched[batchSize];
      samplesCount := 0;
      events, serviceChecks := [], [];
      sentSamples, sentEvents, sentServiceChecks := [], [], [];
      flushed := 0;
    }

    /** Sends what the array holds and takes a new one from the pool. */
    method FlushSamples()
      requires Valid()
      modifies this`samples, this`samplesCount, this`sentSamples
      ensures samplesCount == 0 && samples.Length == batchSize
      ensures samples == old(samples) || fresh(samples)
      ensures flushed <= |sentSamples| && sentSamples[..flushed] == old(sentSamples[..flushed])
      ensures sentSamples[flushed..] ==
              old(sentSamples[flushed..]) + if old(samplesCount) == 0 then [] else [old(samples[..samplesCount])]
      ensures Flatten(sentSamples[flushed..]) == old(Taken())
    {
      if samplesCount > 0 {
        FullBatchSent(sentSamples[flushed..], samples[..samplesCount]);
        sentSamples := sentSamples + [samples[..samplesCount]];
        assert sentSamples[flushed..] == old(sentSamples[flushed..]) + [old(samples[..samplesCount])];
        samplesCount := 0;
        samples := new Enriched[batchSize];
      }
    }

    method AppendSample(x: Enriched)
      requires Valid()
      modifies this`samples, this`samplesCount, this`sentSamples, samples
      ensures Valid() && (samples == old(samples) || fresh(samples))
      ensures Pending() == old(Pending()).Plus(Output([x], [], []))
      ensures SentBefore() == old(SentBefore())
    {
      ghost var before := Taken();
      if samplesCount == samples.Length {
        FlushSamples();
      }
      PutSample(x);
      assert Taken() == before + [x];
      assert events + [] == events && serviceChecks + [] == serviceChecks;
    }

    method PutSample(x: Enriched)
      requires samplesCount < samples.Length
      modifies this`samplesCount, samples
      ensures samplesCount == old(samplesCount) + 1
      ensures samples[..samplesCount] == old(samples[..samplesCount]) + [x]
    {
      samples[samplesCount] := x;
      samplesCount := samplesCount + 1;
    }

    method AppendEvent(e: EnrichedEvent)
      requires Valid()
      modifies this`events
      ensures Valid()
      ensures Pending() == old(Pending()).Plus(Output([], [e], []))
      ensures SentBefore() == old(SentBefore())
    {
      events := events + [e];
      assert Taken() + [] == Taken() && serviceChecks + [] == serviceChecks;
    }

    method AppendServiceCheck(c: ServiceCheck)
      requires Valid()
      modifies this`serviceChecks
      ensures Valid()
      ensures Pending() == old(Pending()).Plus(Output([], [], [c]))
      ensures SentBefore() == old(SentBefore())
    {
      serviceChecks := serviceChecks + [c];
      assert Taken() + [] == Taken() && events + [] == events;
    }

    /** Everything taken since the last flush is sent, in order; nothing empty ever is. */
    method Flush()
      requires Valid()
      modifies this
      ensures Valid() && (samples == old(samples) || fresh(samples))
      ensures Pending() == NOTHING
      ensures Delivered(SentBefore(), old(SentBefore()), old(Pending()), batchSize)
    {
      ghost var full, last, taken := sentSamples[flushed..], samples[..samplesCount], Taken();
      ghost var n := flushed;
      FlushSamples();
      LastBatchSent(sentSamples, n, full, last, taken, batchSize);
      flushed := |sentSamples|;
      assert old(SentBefore()).samples == sentSamples[..n] && SentBefore().samples == sentSamples;
      if events != [] {
        sentEvents := sentEvents + [events];
        events := [];
      }
      if serviceChecks != [] {
        sentServiceChecks := sentServiceChecks + [serviceChecks];
        serviceChecks := [];
      }
      assert sentEvents == old(sentEvents) + (if old(events) == [] then [] else [old(events)]);
      assert sentServiceChecks ==
             old(sentServiceChecks) + (if old(serviceChecks) == [] then [] else [old(serviceChecks)]);
      assert Taken() == [];
    }
  }

  lemma LastBatchSent<T>(sent: seq<seq<T>>, n: nat, full: seq<seq<T>>, last: seq<T>, xs: seq<T>, size: nat)
    requires n <= |sent| && sent[n..] == full + (if last == [] then [] else [last])
    requires (forall i :: 0 <= i < |full| ==> |full[i]| == size) && |last| <= size && (last == [] ==> full == [])
    requires Flatten(sent[n..]) == xs
    ensures sent[..n] <= sent == sent[..|sent|] && sent[|sent|..] == []
    ensures IsBatching(sent[n..], xs, size)
  {
  }

  lemma FullBatchSent<T>(bs: seq<seq<T>>, b: seq<T>)
    ensures Flatten(bs + [b]) == Flatten(bs) + b
  {
    assert (bs + [b])[..|bs|] == bs;
  }
}
