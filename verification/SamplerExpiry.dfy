/**
 When the expiry of contexts is safe, over whole runs of the time sampler: PendingTrackedIff and
 ZeroPointsTrackedIff give the exact settings under which no emitted point can lose its context.
 */
module SamplerExpiry {
  import opened Metrics
  import opened ContextResolver
  import opened SketchMap
  import opened Wrappers
  import opened SamplerState
  import opened SamplerRuns

  /** The samples of each context do not go back in time; nothing is asked of the flushes. */
  ghost predicate SamplesInOrder(p: Params, ops: seq<Op>) {
    forall i, j :: 0 <= i < j < |ops| && ops[i].Sample? && ops[j].Sample? ==> InOrder(p, ops[i], ops[j])
  }

  function LastSample(p: Params, ops: seq<Op>, k: ContextKey): Option<real> {
    if ops == [] then None
    else
      var op := ops[|ops| - 1];
      if op.Sample? && KeyOf(p, op) == k then Some(op.t) else LastSample(p, Prefix(ops), k)
  }

  lemma {:induction false} LastSampleAt(p: Params, ops: seq<Op>, k: ContextKey) returns (i: nat)
    requires LastSample(p, ops, k).Some?
    ensures i < |ops| && ops[i].Sample? && KeyOf(p, ops[i]) == k && ops[i].t == LastSample(p, ops, k).value
  {
    var op := ops[|ops| - 1];
    if op.Sample? && KeyOf(p, op) == k {
      i := |ops| - 1;
    } else {
      i := LastSampleAt(p, Prefix(ops), k);
    }
  }

  lemma LastSampleNotLater(p: Params, ops: seq<Op>)
    requires ops != [] && ops[|ops| - 1].Sample? && SamplesInOrder(p, ops)
    ensures var last := LastSample(p, Prefix(ops), KeyOf(p, ops[|ops| - 1])); last.Some? ==> last.value <= ops[|ops| - 1].t
  {
    var k := KeyOf(p, ops[|ops| - 1]);
    if LastSample(p, Prefix(ops), k).Some? {
      var i := LastSampleAt(p, Prefix(ops), k);
      assert InOrder(p, ops[i], ops[|ops| - 1]);
    }
  }

  ghost predicate PendingFor(s: State, bucket: int, k: ContextKey) {
    k in MetricsAt(s, bucket) || Holds(s.sketches, bucket, k)
  }

  ghost predicate PendingTracked(s: State) {
    forall b, k :: PendingFor(s, b, k) ==> k in s.tracked.contexts
  }

  // ----- pending contexts -----

  /** Seen at least as late as the last sample, and no bucket is pending that is newer than the last sample's. */
  ghost predicate SeenInv(p: Params, ops: seq<Op>, s: State) {
    && s.tracked.Agree()
    && (forall k :: k in s.tracked.lastSeen ==> LastSample(p, ops, k).Some? && LastSample(p, ops, k).value <= s.tracked.lastSeen[k])
    && (forall b, k :: PendingFor(s, b, k) ==> LastSample(p, ops, k).Some? && b <= BucketStart(LastSample(p, ops, k).value, p.interval))
  }

  lemma PendingForAfter(p: Params, s: State, op: Op, bucket: int, k: ContextKey)
    requires PendingFor(Step(p, s, op), bucket, k)
    ensures PendingFor(s, bucket, k) || (op.Sample? && k == KeyOf(p, op) && bucket == BucketStart(op.t, p.interval))
    ensures Pending(Step(p, s, op), bucket)
  {}

  lemma SeenAfterSample(p: Params, s: State, op: Op)
    requires op.Sample? && s.tracked.Agree()
    ensures var s' := Step(p, s, op);
            && s'.tracked.Agree()
            && s'.tracked.lastSeen == s.tracked.lastSeen[KeyOf(p, op) := op.t]
  {}

  lemma SeenAfterFlush(p: Params, s: State, op: Op)
    requires op.Flush? && s.tracked.Agree()
    ensures var s' := Step(p, s, op);
            && s'.tracked.Agree()
            && (forall k :: k in s'.tracked.lastSeen ==> k in s.tracked.lastSeen && s.tracked.lastSeen[k] <= s'.tracked.lastSeen[k])
            && (forall k :: k in s.tracked.lastSeen && s.tracked.lastSeen[k] >= op.t - DEFAULT_EXPIRY ==> k in s'.tracked.lastSeen)
  {}

  lemma {:induction false} RunSeen(p: Params, ops: seq<Op>)
    requires SamplesInOrder(p, ops)
    ensures SeenInv(p, ops, Run(p, ops))
  {
    if ops != [] {
      RunSeen(p, Prefix(ops));
      var s, op, s' := Run(p, Prefix(ops)), ops[|ops| - 1], Run(p, ops);
      assert s' == Step(p, s, op);
      if op.Sample? {
        SeenAfterSample(p, s, op);
        LastSampleNotLater(p, ops);
      } else {
        SeenAfterFlush(p, s, op);
      }
      forall b, k | PendingFor(s', b, k)
        ensures LastSample(p, ops, k).Some? && b <= BucketStart(LastSample(p, ops, k).value, p.interval)
      {
        PendingForAfter(p, s, op, b, k);
        if op.Sample? && k == KeyOf(p, op) && LastSample(p, Prefix(ops), k).Some? {
          BucketStartMonotone(LastSample(p, Prefix(ops), k).value, op.t, p.interval);
        }
      }
    }
  }

  lemma {:induction false} RunPendingTracked(p: Params, ops: seq<Op>)
    requires SamplesInOrder(p, ops) && SamplesAfterEpoch(ops) && p.interval as real <= DEFAULT_EXPIRY
    ensures PendingTracked(Run(p, ops))
  {
    if ops != [] {
      RunPendingTracked(p, Prefix(ops));
      RunSeen(p, Prefix(ops));
      var s, op, s' := Run(p, Prefix(ops)), ops[|ops| - 1], Run(p, ops);
      assert s' == Step(p, s, op);
      forall b, k | PendingFor(s', b, k)
        ensures k in s'.tracked.contexts
      {
        PendingForAfter(p, s, op, b, k);
        if op.Sample? {
          SeenAfterSample(p, s, op);
        } else {
          SeenAfterFlush(p, s, op);
          PendingAfter(p, s, op, b);
          SameBoundary(p, Prefix(ops), op.t, b);
          var i := LastSampleAt(p, Prefix(ops), k);
          BucketStartFacts(ops[i].t, p.interval);
          BucketStartFacts(op.t, p.interval);
        }
      }
    }
  }

  function SomeSample(mtype: MetricType): MetricSample {
    MetricSample("m", Finite(1.0), "1", mtype, [], "", Finite(1.0), 0.0)
  }

  /** A bucket longer than the expiry: its only context is forgotten while the bucket is still open. */
  lemma LongBucketLosesContext(p: Params) returns (ops: seq<Op>)
    requires p.interval as real > DEFAULT_EXPIRY
    ensures SamplesInOrder(p, ops) && SamplesAfterEpoch(ops) && !PendingTracked(Run(p, ops))
    ensures ops == [Sample(SomeSample(GaugeType), 0.0), Flush(300.5)]
    ensures exists k :: k in MetricsAt(Run(p, ops), 0) && k !in Run(p, ops).tracked.contexts
  {
    var first, last := Sample(SomeSample(GaugeType), 0.0), Flush(300.5);
    ops := [first, last];
    assert Prefix(ops) == [first] && Prefix([first]) == [];
    var s := AddedSample(p, INITIAL, first.x, 0.0);
    assert Run(p, [first]) == s;
    assert Run(p, ops) == Flushed(p, s, 300.5);
    assert PendingFor(Run(p, ops), 0, KeyOf(p, first));
    assert KeyOf(p, first) in MetricsAt(Run(p, ops), 0);
  }

  /** Every pending context stays tracked in every run, exactly when a bucket is no longer than the expiry. */
  lemma PendingTrackedIff(p: Params)
    ensures (forall ops: seq<Op> :: SamplesInOrder(p, ops) && SamplesAfterEpoch(ops) ==> PendingTracked(Run(p, ops)))
       <==> p.interval as real <= DEFAULT_EXPIRY
  {
    if p.interval as real <= DEFAULT_EXPIRY {
      forall ops: seq<Op> | SamplesInOrder(p, ops) && SamplesAfterEpoch(ops)
        ensures PendingTracked(Run(p, ops))
      {
        RunPendingTracked(p, ops);
      }
    } else {
      var ops := LongBucketLosesContext(p);
    }
  }

  // ----- zero points -----

  /** Every counter that the flush feeds a zero still has its context. */
  ghost predicate ZerosTracked(p: Params, s: State, t: real) {
    forall b, k :: b in Closing(p, s, BucketStart(t, p.interval)) && k in ZeroTargets(p, s, b) ==> k in s.tracked.contexts
  }

  ghost predicate NoZeroLost(p: Params, ops: seq<Op>) {
    forall i: nat :: FlushAt(ops, i) ==> ZerosTracked(p, Run(p, ops[..i]), ops[i].t)
  }

  /** A counter is tracked, or its expiry has passed at the last cutoff, so it gets no more zeros. */
  ghost predicate CounterInv(p: Params, ops: seq<Op>, s: State) {
    forall k :: k in s.counters ==>
      && LastSample(p, ops, k).Some? && s.counters[k] <= LastSample(p, ops, k).value
      && (k in s.tracked.lastSeen || (LastFlush(ops).Some? && s.counters[k] + p.expiry <= s.lastCutOff as real))
  }

  lemma CountersAfter(p: Params, s: State, op: Op, k: ContextKey)
    requires k in Step(p, s, op).counters
    ensures (op.Sample? && KeyOf(p, op) == k && Step(p, s, op).counters[k] == op.t)
         || (k in s.counters && Step(p, s, op).counters[k] == s.counters[k])
    ensures Step(p, s, op).lastCutOff == if op.Flush? then BucketStart(op.t, p.interval) else s.lastCutOff
  {}

  lemma OrderedSamples(p: Params, ops: seq<Op>)
    requires Ordered(p, ops)
    ensures SamplesInOrder(p, ops)
  {}

  lemma {:induction false} RunCounters(p: Params, ops: seq<Op>)
    requires Ordered(p, ops) && p.expiry + p.interval as real <= DEFAULT_EXPIRY
    ensures CounterInv(p, ops, Run(p, ops))
  {
    if ops != [] {
      OrderedPrefix(p, ops, |ops| - 1);
      OrderedSamples(p, ops);
      RunCounters(p, Prefix(ops));
      RunSeen(p, Prefix(ops));
      var s, op, s' := Run(p, Prefix(ops)), ops[|ops| - 1], Run(p, ops);
      assert s' == Step(p, s, op);
      if op.Sample? {
        SeenAfterSample(p, s, op);
        LastSampleNotLater(p, ops);
      } else {
        SeenAfterFlush(p, s, op);
        BucketStartFacts(op.t, p.interval);
        if LastFlush(Prefix(ops)).Some? {
          RunWindow(p, Prefix(ops));
          var i := LastFlushAt(Prefix(ops));
          assert InOrder(p, ops[i], op);
          BucketStartMonotone(ops[i].t, op.t, p.interval);
        }
      }
      forall k | k in s'.counters
        ensures LastSample(p, ops, k).Some? && s'.counters[k] <= LastSample(p, ops, k).value
        ensures k in s'.tracked.lastSeen || (LastFlush(ops).Some? && s'.counters[k] + p.expiry <= s'.lastCutOff as real)
      {
        CountersAfter(p, s, op, k);
      }
    }
  }

  lemma RunNoZeroLost(p: Params, ops: seq<Op>)
    requires Ordered(p, ops) && p.expiry + p.interval as real <= DEFAULT_EXPIRY
    ensures NoZeroLost(p, ops)
  {
    forall i: nat | FlushAt(ops, i)
      ensures ZerosTracked(p, Run(p, ops[..i]), ops[i].t)
    {
      OrderedPrefix(p, ops, i);
      OrderedSamples(p, ops[..i]);
      RunCounters(p, ops[..i]);
      RunSeen(p, ops[..i]);
      FlushWindow(p, ops, i);
      RunWindow(p, ops[..i]);
    }
  }

  /** Settings that let a counter be forgotten between two flushes while it is still owed a zero. */
  lemma LateZero(p: Params) returns (ops: seq<Op>)
    requires p.expiry + p.interval as real > DEFAULT_EXPIRY
    ensures Ordered(p, ops) && SamplesAfterEpoch(ops) && !NoZeroLost(p, ops)
  {
    var interval := p.interval as real;
    var slack := p.expiry + interval - DEFAULT_EXPIRY;
    var gap := (if slack <= interval then slack else interval) / 4.0;
    var cutoff := 300 * p.interval;
    var next := (cutoff + p.interval) as real;
    var sampled, flushed := next - DEFAULT_EXPIRY - 2.0 * gap, next - gap;
    var x := SomeSample(CounterType);
    ops := [Sample(x, sampled), Flush(flushed), Flush(next)];
    MultipleOf(300, p.interval);
    MultipleOf(301, p.interval);
    CutoffOf(flushed, cutoff, p.interval);
    CutoffOf(next, cutoff + p.interval, p.interval);
    var bucket := BucketStart(sampled, p.interval);
    BucketStartFacts(sampled, p.interval);
    if cutoff < bucket {
      MultipleApart(cutoff, bucket, p.interval);
    } else if bucket < cutoff {
      MultipleApart(bucket, cutoff, p.interval);
    }
    AfterTwo(p, ops);
    AfterLateFlush(p, p.hash(ContextOf(x)), x, sampled, bucket, flushed, cutoff);
    assert !ZerosTracked(p, Run(p, ops[..2]), ops[2].t);
    assert FlushAt(ops, 2);
  }

  lemma AfterTwo(p: Params, ops: seq<Op>)
    requires |ops| == 3 && ops[0].Sample? && ops[0].x == SomeSample(CounterType) && ops[1].Flush?
    ensures Run(p, ops[..2]) == Flushed(p,
              OneCounter(KeyOf(p, ops[0]), ops[0].x, ops[0].t, BucketStart(ops[0].t, p.interval)), ops[1].t)
  {
    var first := ops[..1];
    assert first == [ops[0]] && Prefix(first) == [];
    assert Run(p, first) == Step(p, INITIAL, ops[0]);
    AfterOneCounter(p, ops[0].x, ops[0].t);
    assert Prefix(ops[..2]) == first;
  }

  lemma CutoffOf(t: real, cutoff: int, interval: Interval)
    requires cutoff >= 0 && cutoff % interval == 0 && cutoff as real <= t < (cutoff + interval) as real
    ensures BucketStart(t, interval) == cutoff
  {
    BucketStartFacts(t, interval);
    var b := BucketStart(t, interval);
    if b < cutoff {
      MultipleApart(b, cutoff, interval);
    } else if cutoff < b {
      MultipleApart(cutoff, b, interval);
    }
  }

  /** The state that holds nothing but one counter sample. */
  function OneCounter(k: ContextKey, x: MetricSample, sampled: real, bucket: int): State {
    State(Tracked(map[k := ContextOf(x)], map[k := sampled]), map[bucket := map[k := [Arrived(x, sampled)]]], map[k := sampled], 0, map[])
  }

  lemma AfterOneCounter(p: Params, x: MetricSample, sampled: real)
    requires x == SomeSample(CounterType)
    ensures AddedSample(p, INITIAL, x, sampled)
         == OneCounter(p.hash(ContextOf(x)), x, sampled, BucketStart(sampled, p.interval))
  {
    var k, none: ContextMetrics := p.hash(ContextOf(x)), map[];
    var arrived := Arrived(x, sampled);
    assert SamplesOf(none, k) + [arrived] == [arrived];
    assert AddSample(none, k, arrived) == map[k := [arrived]];
  }

  /** After one late flush the counter is still live at `cutoff`, but its context is gone. */
  lemma AfterLateFlush(p: Params, k: ContextKey, x: MetricSample, sampled: real, bucket: int, flushed: real, cutoff: int)
    requires bucket as real <= sampled < flushed - DEFAULT_EXPIRY && sampled + p.expiry > cutoff as real
    requires BucketStart(flushed, p.interval) == cutoff && bucket <= cutoff
    requires bucket < cutoff ==> bucket + p.interval <= cutoff
    ensures var s := Flushed(p, OneCounter(k, x, sampled, bucket), flushed);
            && k !in s.tracked.contexts && k in ZeroTargets(p, s, cutoff)
            && cutoff in Closing(p, s, cutoff + p.interval)
  {
    var s := OneCounter(k, x, sampled, bucket);
    var closing := Closing(p, s, cutoff);
    assert closing <= {bucket};
    assert BumpedTracked(p, s, closing).lastSeen[k] == sampled;
    assert k in KeptCounters(p, s, closing);
    var s' := Flushed(p, s, flushed);
    if bucket in closing {
      assert s'.metrics == map[];
    } else {
      assert bucket == cutoff && bucket in s'.metrics;
    }
  }

  /**
   No zero point of an idle counter is ever dropped, exactly when dogstatsd_expiry_seconds leaves
   room for one bucket before the context expires.
   */
  lemma ZeroPointsTrackedIff(p: Params)
    ensures (forall ops: seq<Op> :: Ordered(p, ops) && SamplesAfterEpoch(ops) ==> NoZeroLost(p, ops))
       <==> p.expiry + p.interval as real <= DEFAULT_EXPIRY
  {
    if p.expiry + p.interval as real <= DEFAULT_EXPIRY {
      forall ops: seq<Op> | Ordered(p, ops) && SamplesAfterEpoch(ops)
        ensures NoZeroLost(p, ops)
      {
        RunNoZeroLost(p, ops);
      }
    } else {
      var ops := LateZero(p);
    }
  }

  /** The shipped defaults, a 300 second expiry and 10 second buckets, do lose a zero point in some run. */
  lemma DefaultSettingsLoseZero(hash: Context -> ContextKey)
    ensures exists ops: seq<Op> :: var p := Params(BUCKET_SIZE, 300.0, hash);
              Ordered(p, ops) && SamplesAfterEpoch(ops) && !NoZeroLost(p, ops)
  {
    var ops := LateZero(Params(BUCKET_SIZE, 300.0, hash));
  }

  /** With room for one bucket, no flush of an ordered run drops a serie or reads a missing context. */
  lemma FlushComplete(p: Params, ops: seq<Op>, i: nat)
    requires Ordered(p, ops) && SamplesAfterEpoch(ops) && FlushAt(ops, i)
    requires p.interval as real <= DEFAULT_EXPIRY && p.expiry + p.interval as real <= DEFAULT_EXPIRY
    ensures CompleteAt(p, ops, i)
  {
    OrderedPrefix(p, ops, i);
    OrderedSamples(p, ops[..i]);
    RunPendingTracked(p, ops[..i]);
    RunNoZeroLost(p, ops);
    var s := Run(p, ops[..i]);
    assert ZerosTracked(p, s, ops[i].t);
    assert forall b, k :: k in MetricsAt(s, b) ==> PendingFor(s, b, k);
    assert forall b, k :: Holds(s.sketches, b, k) ==> PendingFor(s, b, k);
  }

  ghost predicate CompleteAt(p: Params, ops: seq<Op>, i: nat)
    requires FlushAt(ops, i)
  {
    var s, cutoff := Run(p, ops[..i]), BucketStart(ops[i].t, p.interval);
    MetricsTracked(p, s, cutoff) && SketchesTracked(s, cutoff)
  }

  /** No flush drops a serie or reads a missing context. */
  ghost predicate AllComplete(p: Params, ops: seq<Op>) {
    forall i: nat :: FlushAt(ops, i) ==> CompleteAt(p, ops, i)
  }

  /** A bucket longer than the expiry: its context is forgotten while it is open, and missing when it closes. */
  lemma LongBucketIncomplete(p: Params) returns (ops: seq<Op>)
    requires p.interval as real > DEFAULT_EXPIRY
    ensures Ordered(p, ops) && SamplesAfterEpoch(ops) && !AllComplete(p, ops)
  {
    var open := LongBucketLosesContext(p);
    ops := open + [Flush(p.interval as real)];
    assert ops[..2] == open;
    MultipleOf(1, p.interval);
    CutoffOf(p.interval as real, p.interval, p.interval);
    assert 0 in Closing(p, Run(p, open), p.interval);
    assert FlushAt(ops, 2) && !CompleteAt(p, ops, 2);
  }

  lemma LostIsIncomplete(p: Params, ops: seq<Op>)
    requires !NoZeroLost(p, ops)
    ensures !AllComplete(p, ops)
  {
    var i: nat :| FlushAt(ops, i) && !ZerosTracked(p, Run(p, ops[..i]), ops[i].t);
    assert !CompleteAt(p, ops, i);
  }

  /** No flush of any ordered run drops a serie or reads a missing context, exactly with room for one bucket before either expiry. */
  lemma FlushesCompleteIff(p: Params)
    ensures (forall ops: seq<Op> :: Ordered(p, ops) && SamplesAfterEpoch(ops) ==> AllComplete(p, ops))
       <==> p.interval as real <= DEFAULT_EXPIRY && p.expiry + p.interval as real <= DEFAULT_EXPIRY
  {
    if p.interval as real > DEFAULT_EXPIRY {
      var ops := LongBucketIncomplete(p);
    } else if p.expiry + p.interval as real > DEFAULT_EXPIRY {
      var ops := LateZero(p);
      LostIsIncomplete(p, ops);
    } else {
      forall ops: seq<Op> | Ordered(p, ops) && SamplesAfterEpoch(ops)
        ensures AllComplete(p, ops)
      {
        forall i: nat | FlushAt(ops, i)
          ensures CompleteAt(p, ops, i)
        {
          FlushComplete(p, ops, i);
        }
      }
    }
  }
}
