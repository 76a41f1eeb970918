/**
 Whole runs of the time sampler: any sequence of samples and flushes, each with its own time.
 Main results: Conservation, SameBoundary, EmittedOnce, CompleteBuckets.
 */
module SamplerRuns {
  import opened Metrics
  import opened SketchMap
  import opened Wrappers
  import opened SamplerState

  datatype Op = Sample(x: MetricSample, t: real) | Flush(t: real)

  ghost function Step(p: Params, s: State, op: Op): State {
    match op
    case Sample(x, t) => AddedSample(p, s, x, t)
    case Flush(t) => Flushed(p, s, t)
  }

  ghost function Run(p: Params, ops: seq<Op>): State {
    if ops == [] then INITIAL else Step(p, Run(p, ops[..|ops| - 1]), ops[|ops| - 1])
  }

  function KeyOf(p: Params, op: Op): ContextKey
    requires op.Sample?
  {
    p.hash(ContextOf(op.x))
  }

  /**
   What a clock guarantees: flushes never go back, a sample is not older than an earlier flush,
   and the samples of one context do not go back. Samples of different contexts may interleave
   freely, and a sample may be ahead of the next flush.
   */
  predicate InOrder(p: Params, a: Op, b: Op) {
    match (a, b)
    case (Flush(t), _) => t <= b.t
    case (Sample(_, t), Sample(_, u)) => KeyOf(p, a) == KeyOf(p, b) ==> t <= u
    case (Sample(_, _), Flush(_)) => true
  }

  ghost predicate Ordered(p: Params, ops: seq<Op>) {
    forall i, j :: 0 <= i < j < |ops| ==> InOrder(p, ops[i], ops[j])
  }

  /** Sample times count seconds since the Unix epoch. */
  ghost predicate SamplesAfterEpoch(ops: seq<Op>) {
    forall i :: 0 <= i < |ops| && ops[i].Sample? ==> ops[i].t >= 0.0
  }

  // ----- bucket arithmetic -----

  lemma MulMonotone(x: int, y: int, n: int)
    requires n > 0
    ensures x <= y ==> x * n <= y * n
  {}

  lemma MultipleApart(a: int, b: int, interval: Interval)
    requires a % interval == 0 && b % interval == 0 && a < b
    ensures a + interval <= b
  {
    QuotientsApart(a / interval, b / interval, interval);
  }

  lemma QuotientsApart(x: int, y: int, interval: Interval)
    requires x * interval < y * interval
    ensures x * interval + interval <= y * interval
  {
    MulMonotone(y, x, interval);
    MulMonotone(x + 1, y, interval);
  }

  lemma RemainderFacts(a: int, interval: Interval)
    ensures (a - Remainder(a, interval)) % interval == 0
    ensures 0 <= a ==> 0 <= Remainder(a, interval) < interval
    ensures a <= 0 ==> 0 <= -Remainder(a, interval) < interval
  {
    if a >= 0 {
      assert a - Remainder(a, interval) == (a / interval) * interval;
      MultipleOf(a / interval, interval);
    } else {
      assert a - Remainder(a, interval) == -((-a) / interval * interval);
      assert -((-a) / interval * interval) == (-((-a) / interval)) * interval;
      MultipleOf(-((-a) / interval), interval);
    }
  }

  lemma MultipleOf(n: int, interval: Interval)
    ensures (n * interval) % interval == 0
  {
    var q, r := (n * interval) / interval, (n * interval) % interval;
    assert n * interval == q * interval + r;
    assert (n - q) * interval == r;
    MulMonotone(1, n - q, interval);
    MulMonotone(n - q, -1, interval);
  }

  /** A bucket start is a multiple of the interval, and the bucket does not end before its samples. */
  lemma BucketStartFacts(t: real, interval: Interval)
    ensures BucketStart(t, interval) % interval == 0
    ensures t < (BucketStart(t, interval) + interval) as real
    ensures t >= 0.0 ==> 0 <= BucketStart(t, interval) && BucketStart(t, interval) as real <= t
  {
    RemainderFacts(Truncate(t), interval);
    assert t < 0.0 ==> t <= Truncate(t) as real;
  }

  lemma BucketStartMonotone(t: real, u: real, interval: Interval)
    requires t <= u
    ensures BucketStart(t, interval) <= BucketStart(u, interval)
  {
    BucketStartFacts(t, interval);
    BucketStartFacts(u, interval);
    var a, b := BucketStart(t, interval), BucketStart(u, interval);
    RemainderFacts(Truncate(t), interval);
    RemainderFacts(Truncate(u), interval);
    assert Truncate(t) <= Truncate(u);
    if b < a {
      MultipleApart(b, a, interval);
    }
  }

  // ----- conservation -----

  function Prefix(ops: seq<Op>): seq<Op>
    requires ops != []
  {
    ops[..|ops| - 1]
  }

  /** What one operation adds to the metric (bucket, k). */
  function GainedMetrics(p: Params, op: Op, bucket: int, k: ContextKey): seq<MetricSample> {
    if op.Sample? && op.x.mtype != DistributionType && op.x.value.Finite?
       && KeyOf(p, op) == k && BucketStart(op.t, p.interval) == bucket then [Arrived(op.x, op.t)] else []
  }

  function GainedSketch(p: Params, op: Op, bucket: int, k: ContextKey): seq<Insertion> {
    if op.Sample? && op.x.mtype == DistributionType && op.x.value.Finite?
       && KeyOf(p, op) == k && BucketStart(op.t, p.interval) == bucket then [Value(op.x.value.r, op.x.sampleRate)] else []
  }

  /** The samples of the run that belong to the metric (bucket, k), in order: the specification of aggregation. */
  function AcceptedMetrics(p: Params, ops: seq<Op>, bucket: int, k: ContextKey): seq<MetricSample> {
    if ops == [] then [] else AcceptedMetrics(p, Prefix(ops), bucket, k) + GainedMetrics(p, ops[|ops| - 1], bucket, k)
  }

  function AcceptedSketch(p: Params, ops: seq<Op>, bucket: int, k: ContextKey): seq<Insertion> {
    if ops == [] then [] else AcceptedSketch(p, Prefix(ops), bucket, k) + GainedSketch(p, ops[|ops| - 1], bucket, k)
  }

  function PendingMetrics(s: State, bucket: int, k: ContextKey): seq<MetricSample> {
    SamplesOf(MetricsAt(s, bucket), k)
  }

  /** What one operation takes out of the metric (bucket, k), zero samples apart. */
  function EmittedMetrics(p: Params, s: State, op: Op, bucket: int, k: ContextKey): seq<MetricSample> {
    if op.Flush? && bucket in Closing(p, s, BucketStart(op.t, p.interval)) then PendingMetrics(s, bucket, k) else []
  }

  function EmittedSketch(p: Params, s: State, op: Op, bucket: int, k: ContextKey): seq<Insertion> {
    if op.Flush? && bucket in Before(s.sketches, BucketStart(op.t, p.interval)) then At(s.sketches, bucket, k) else []
  }

  /** Everything the flushes of the run took out of (bucket, k), in order. */
  ghost function TakenMetrics(p: Params, ops: seq<Op>, bucket: int, k: ContextKey): seq<MetricSample> {
    if ops == [] then []
    else TakenMetrics(p, Prefix(ops), bucket, k) + EmittedMetrics(p, Run(p, Prefix(ops)), ops[|ops| - 1], bucket, k)
  }

  ghost function TakenSketch(p: Params, ops: seq<Op>, bucket: int, k: ContextKey): seq<Insertion> {
    if ops == [] then []
    else TakenSketch(p, Prefix(ops), bucket, k) + EmittedSketch(p, Run(p, Prefix(ops)), ops[|ops| - 1], bucket, k)
  }

  lemma StepConserves(p: Params, s: State, op: Op, bucket: int, k: ContextKey)
    ensures PendingMetrics(s, bucket, k) + GainedMetrics(p, op, bucket, k)
         == EmittedMetrics(p, s, op, bucket, k) + PendingMetrics(Step(p, s, op), bucket, k)
  {}

  lemma StepConservesSketch(p: Params, s: State, op: Op, bucket: int, k: ContextKey)
    ensures At(s.sketches, bucket, k) + GainedSketch(p, op, bucket, k)
         == EmittedSketch(p, s, op, bucket, k) + At(Step(p, s, op).sketches, bucket, k)
  {}

  lemma Exchange<T>(accepted: seq<T>, taken: seq<T>, pending: seq<T>, gained: seq<T>, emitted: seq<T>, left: seq<T>)
    requires accepted == taken + pending && pending + gained == emitted + left
    ensures accepted + gained == (taken + emitted) + left
  {
    assert taken + (pending + gained) == (taken + pending) + gained;
  }

  /** In every run nothing is lost, duplicated or reordered: accepted is taken by flushes followed by still pending. */
  lemma {:induction false} Conservation(p: Params, ops: seq<Op>, bucket: int, k: ContextKey)
    ensures AcceptedMetrics(p, ops, bucket, k)
         == TakenMetrics(p, ops, bucket, k) + PendingMetrics(Run(p, ops), bucket, k)
    ensures AcceptedSketch(p, ops, bucket, k)
         == TakenSketch(p, ops, bucket, k) + At(Run(p, ops).sketches, bucket, k)
  {
    if ops != [] {
      var before, s, op := Prefix(ops), Run(p, Prefix(ops)), ops[|ops| - 1];
      Conservation(p, before, bucket, k);
      StepConserves(p, s, op, bucket, k);
      StepConservesSketch(p, s, op, bucket, k);
      Exchange(AcceptedMetrics(p, before, bucket, k), TakenMetrics(p, before, bucket, k), PendingMetrics(s, bucket, k),
               GainedMetrics(p, op, bucket, k), EmittedMetrics(p, s, op, bucket, k), PendingMetrics(Run(p, ops), bucket, k));
      Exchange(AcceptedSketch(p, before, bucket, k), TakenSketch(p, before, bucket, k), At(s.sketches, bucket, k),
               GainedSketch(p, op, bucket, k), EmittedSketch(p, s, op, bucket, k), At(Run(p, ops).sketches, bucket, k));
    }
  }

  /** Right after a flush everything accepted for a closed bucket has been emitted, whatever the order of times. */
  lemma ClosedBucketsTaken(p: Params, ops: seq<Op>, bucket: int, k: ContextKey)
    requires ops != [] && ops[|ops| - 1].Flush?
    requires !StillOpen(bucket, BucketStart(ops[|ops| - 1].t, p.interval), p.interval)
    ensures TakenMetrics(p, ops, bucket, k) == AcceptedMetrics(p, ops, bucket, k)
    ensures TakenSketch(p, ops, bucket, k) == AcceptedSketch(p, ops, bucket, k)
  {
    Conservation(p, ops, bucket, k);
    assert Run(p, ops) == Flushed(p, Run(p, Prefix(ops)), ops[|ops| - 1].t);
  }

  // ----- each bucket is emitted by one flush, complete -----

  function LastFlush(ops: seq<Op>): Option<real> {
    if ops == [] then None
    else if ops[|ops| - 1].Flush? then Some(ops[|ops| - 1].t)
    else LastFlush(Prefix(ops))
  }

  ghost predicate Pending(s: State, bucket: int) {
    bucket in s.metrics || bucket in s.sketches
  }

  lemma PendingAfter(p: Params, s: State, op: Op, bucket: int)
    requires Pending(Step(p, s, op), bucket)
    ensures Pending(s, bucket) || (op.Sample? && bucket == BucketStart(op.t, p.interval))
    ensures op.Flush? ==>
              var cutoff := BucketStart(op.t, p.interval); StillOpen(bucket, cutoff, p.interval) || cutoff <= bucket
  {}

  lemma {:induction false} PendingAligned(p: Params, ops: seq<Op>)
    ensures forall b :: Pending(Run(p, ops), b) ==> b % p.interval == 0
  {
    if ops != [] {
      PendingAligned(p, Prefix(ops));
      var s, op := Run(p, Prefix(ops)), ops[|ops| - 1];
      forall b | Pending(Run(p, ops), b)
        ensures b % p.interval == 0
      {
        PendingAfter(p, s, op, b);
        BucketStartFacts(op.t, p.interval);
      }
    }
  }

  /** The two closing tests of the source, `b + interval <= cutoff` for series and `ts < cutoff` for sketches, agree. */
  lemma SameBoundary(p: Params, ops: seq<Op>, t: real, bucket: int)
    requires Pending(Run(p, ops), bucket)
    ensures var cutoff := BucketStart(t, p.interval);
            !StillOpen(bucket, cutoff, p.interval) <==> bucket < cutoff
  {
    PendingAligned(p, ops);
    BucketStartFacts(t, p.interval);
    if bucket < BucketStart(t, p.interval) {
      MultipleApart(bucket, BucketStart(t, p.interval), p.interval);
    }
  }

  lemma OrderedPrefix(p: Params, ops: seq<Op>, n: nat)
    requires Ordered(p, ops) && n <= |ops|
    ensures Ordered(p, ops[..n])
  {}

  lemma {:induction false} LastFlushAt(ops: seq<Op>) returns (i: nat)
    requires LastFlush(ops).Some?
    ensures i < |ops| && ops[i] == Flush(LastFlush(ops).value)
  {
    if ops[|ops| - 1].Flush? {
      i := |ops| - 1;
    } else {
      i := LastFlushAt(Prefix(ops));
    }
  }

  /** After the first flush the cutoff is the last flush's, and nothing older is pending. */
  ghost predicate Window(p: Params, ops: seq<Op>, s: State) {
    LastFlush(ops).Some? ==>
      && s.lastCutOff == BucketStart(LastFlush(ops).value, p.interval)
      && forall b :: Pending(s, b) ==> s.lastCutOff <= b
  }

  lemma {:induction false} RunWindow(p: Params, ops: seq<Op>)
    requires Ordered(p, ops)
    ensures Window(p, ops, Run(p, ops))
  {
    if ops != [] {
      OrderedPrefix(p, ops, |ops| - 1);
      RunWindow(p, Prefix(ops));
      var s, op := Run(p, Prefix(ops)), ops[|ops| - 1];
      match op
      case Sample(x, t) =>
        if LastFlush(Prefix(ops)).Some? {
          var i := LastFlushAt(Prefix(ops));
          assert InOrder(p, ops[i], op);
          BucketStartMonotone(ops[i].t, t, p.interval);
          forall b | Pending(Run(p, ops), b)
            ensures s.lastCutOff <= b
          {
            PendingAfter(p, s, op, b);
          }
        }
      case Flush(t) =>
        forall b | Pending(Run(p, ops), b)
          ensures BucketStart(t, p.interval) <= b
        {
          PendingAfter(p, s, op, b);
          SameBoundary(p, Prefix(ops), t, b);
        }
    }
  }

  ghost predicate FlushAt(ops: seq<Op>, i: nat) {
    i < |ops| && ops[i].Flush?
  }

  lemma ClosingRange(p: Params, s: State, cutoff: int, bucket: int)
    requires bucket in Closing(p, s, cutoff) || bucket in Before(s.sketches, cutoff)
    ensures bucket < cutoff && (Pending(s, bucket) || s.lastCutOff <= bucket)
  {}

  lemma BucketInWindow(p: Params, ops: seq<Op>, i: nat, bucket: int)
    requires Ordered(p, ops) && FlushAt(ops, i)
    requires var s, cutoff := Run(p, ops[..i]), BucketStart(ops[i].t, p.interval);
             bucket in Closing(p, s, cutoff) || bucket in Before(s.sketches, cutoff)
    ensures bucket < BucketStart(ops[i].t, p.interval)
    ensures LastFlush(ops[..i]).Some? ==> BucketStart(LastFlush(ops[..i]).value, p.interval) <= bucket
  {
    OrderedPrefix(p, ops, i);
    RunWindow(p, ops[..i]);
    ClosingRange(p, Run(p, ops[..i]), BucketStart(ops[i].t, p.interval), bucket);
  }

  /** Every bucket that flush `i` emits, zero samples included, lies between the previous cutoff and its own. */
  lemma FlushWindow(p: Params, ops: seq<Op>, i: nat)
    requires Ordered(p, ops) && FlushAt(ops, i)
    ensures var s, cutoff := Run(p, ops[..i]), BucketStart(ops[i].t, p.interval);
            forall b :: b in Closing(p, s, cutoff) || b in Before(s.sketches, cutoff) ==>
              b < cutoff && (LastFlush(ops[..i]).Some? ==> BucketStart(LastFlush(ops[..i]).value, p.interval) <= b)
  {
    var s, cutoff := Run(p, ops[..i]), BucketStart(ops[i].t, p.interval);
    forall b | b in Closing(p, s, cutoff) || b in Before(s.sketches, cutoff)
      ensures b < cutoff && (LastFlush(ops[..i]).Some? ==> BucketStart(LastFlush(ops[..i]).value, p.interval) <= b)
    {
      BucketInWindow(p, ops, i, b);
    }
  }

  lemma {:induction false} LastFlushAfter(p: Params, ops: seq<Op>, i: nat)
    requires Ordered(p, ops) && FlushAt(ops, i)
    ensures LastFlush(ops).Some? && ops[i].t <= LastFlush(ops).value
  {
    if i < |ops| - 1 {
      if ops[|ops| - 1].Flush? {
        assert InOrder(p, ops[i], ops[|ops| - 1]);
      } else {
        OrderedPrefix(p, ops, |ops| - 1);
        LastFlushAfter(p, Prefix(ops), i);
      }
    }
  }

  /** No bucket is emitted by two flushes, neither as series (idle counters included) nor as sketches. */
  lemma EmittedOnce(p: Params, ops: seq<Op>, i: nat, j: nat)
    requires Ordered(p, ops) && FlushAt(ops, i) && FlushAt(ops, j) && i < j
    ensures Closing(p, Run(p, ops[..i]), BucketStart(ops[i].t, p.interval))
         !! Closing(p, Run(p, ops[..j]), BucketStart(ops[j].t, p.interval))
    ensures Before(Run(p, ops[..i]).sketches, BucketStart(ops[i].t, p.interval))
         !! Before(Run(p, ops[..j]).sketches, BucketStart(ops[j].t, p.interval))
  {
    FlushWindow(p, ops, i);
    FlushWindow(p, ops, j);
    OrderedPrefix(p, ops, j);
    LastFlushAfter(p, ops[..j], i);
    BucketStartMonotone(ops[i].t, LastFlush(ops[..j]).value, p.interval);
  }

  lemma {:induction false} NothingTaken(p: Params, ops: seq<Op>, bucket: int, k: ContextKey)
    requires Ordered(p, ops)
    requires LastFlush(ops).Some? ==> BucketStart(LastFlush(ops).value, p.interval) <= bucket
    ensures TakenMetrics(p, ops, bucket, k) == [] && TakenSketch(p, ops, bucket, k) == []
  {
    if ops != [] {
      OrderedPrefix(p, ops, |ops| - 1);
      if ops[|ops| - 1].Flush? {
        assert ops[..|ops| - 1] == Prefix(ops);
        FlushWindow(p, ops, |ops| - 1);
        if LastFlush(Prefix(ops)).Some? {
          var i := LastFlushAt(Prefix(ops));
          assert InOrder(p, ops[i], ops[|ops| - 1]);
          BucketStartMonotone(ops[i].t, ops[|ops| - 1].t, p.interval);
        }
      }
      NothingTaken(p, Prefix(ops), bucket, k);
    }
  }

  lemma {:induction false} NoLateSamples(p: Params, ops: seq<Op>, i: nat, bucket: int, k: ContextKey)
    requires Ordered(p, ops) && FlushAt(ops, i) && bucket < BucketStart(ops[i].t, p.interval)
    ensures AcceptedMetrics(p, ops, bucket, k) == AcceptedMetrics(p, ops[..i], bucket, k)
    ensures AcceptedSketch(p, ops, bucket, k) == AcceptedSketch(p, ops[..i], bucket, k)
  {
    if i == |ops| - 1 {
      assert ops[..i] == Prefix(ops);
    } else {
      OrderedPrefix(p, ops, |ops| - 1);
      NoLateSamples(p, Prefix(ops), i, bucket, k);
      assert Prefix(ops)[..i] == ops[..i];
      assert InOrder(p, ops[i], ops[|ops| - 1]);
      BucketStartMonotone(ops[i].t, ops[|ops| - 1].t, p.interval);
    }
  }

  /** Before flush `i` nothing of a bucket it closes was emitted, and after it nothing more is accepted. */
  lemma OnlyFlushOf(p: Params, ops: seq<Op>, i: nat, bucket: int, k: ContextKey)
    requires Ordered(p, ops) && FlushAt(ops, i)
    requires var s, cutoff := Run(p, ops[..i]), BucketStart(ops[i].t, p.interval);
             bucket in Closing(p, s, cutoff) || bucket in Before(s.sketches, cutoff)
    ensures PendingMetrics(Run(p, ops[..i]), bucket, k) == AcceptedMetrics(p, ops, bucket, k)
    ensures At(Run(p, ops[..i]).sketches, bucket, k) == AcceptedSketch(p, ops, bucket, k)
  {
    FlushWindow(p, ops, i);
    OrderedPrefix(p, ops, i);
    Conservation(p, ops[..i], bucket, k);
    NothingTaken(p, ops[..i], bucket, k);
    NoLateSamples(p, ops, i, bucket, k);
  }

  /**
   The sampler refines batch aggregation: what flush `i` emits for a bucket is all the samples
   that the whole run, including everything after the flush, ever accepts for it.
   */
  lemma CompleteBuckets(p: Params, ops: seq<Op>, i: nat, bucket: int, k: ContextKey)
    requires Ordered(p, ops) && FlushAt(ops, i)
    ensures var s, cutoff := Run(p, ops[..i]), BucketStart(ops[i].t, p.interval);
            && (bucket in Closing(p, s, cutoff) ==>
                  SamplesOf(FlushedMetrics(p, s, cutoff)[bucket], k)
                  == AcceptedMetrics(p, ops, bucket, k) + if k in ZeroTargets(p, s, bucket) then [ZeroSample(bucket)] else [])
            && (bucket in Before(s.sketches, cutoff) ==> At(s.sketches, bucket, k) == AcceptedSketch(p, ops, bucket, k))
  {
    var s, cutoff := Run(p, ops[..i]), BucketStart(ops[i].t, p.interval);
    if bucket in Closing(p, s, cutoff) || bucket in Before(s.sketches, cutoff) {
      OnlyFlushOf(p, ops, i, bucket, k);
    }
  }
}
