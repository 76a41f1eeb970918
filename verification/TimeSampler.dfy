/** pkg/aggregator/time_sampler.go, proved equal to the functions of SamplerState. */
module TimeSampler {
  import opened Metrics
  import opened Wrappers
  import opened Series
  import SketchMap
  import Res = ContextResolver
  import S = SamplerState
  import Runs = SamplerRuns
  import Expiry = SamplerExpiry

  /** What zero samples at `bucket` do to the tracked contexts. */
  function Nudged(tracked: Res.Tracked, targets: set<ContextKey>, bucket: int): Res.Tracked {
    tracked.(lastSeen := map k | k in tracked.lastSeen ::
      if k in targets && tracked.lastSeen[k] < bucket as real then bucket as real else tracked.lastSeen[k])
  }

  lemma BumpedMore(buckets: set<int>, b: int, until: real, seen: real)
    ensures var r := S.Bumped(buckets, until, seen);
            S.Bumped(buckets + {b}, until, seen) == if b as real < until && r < b as real then b as real else r
  {
    var r, r' := S.Bumped(buckets, until, seen), S.Bumped(buckets + {b}, until, seen);
    assert forall c :: c in buckets ==> c in buckets + {b};
    assert b in buckets + {b};
  }

  lemma NudgedIsBumped(p: S.Params, s: S.State, buckets: set<int>, b: int)
    ensures Nudged(S.BumpedTracked(p, s, buckets), S.ZeroTargets(p, s, b), b) == S.BumpedTracked(p, s, buckets + {b})
  {
    var now := Nudged(S.BumpedTracked(p, s, buckets), S.ZeroTargets(p, s, b), b).lastSeen;
    var after := S.BumpedTracked(p, s, buckets + {b}).lastSeen;
    forall k | k in s.tracked.lastSeen
      ensures now[k] == after[k]
    {
      if k in s.counters {
        BumpedMore(buckets, b, p.expiry + s.counters[k], s.tracked.lastSeen[k]);
      }
    }
    assert now.Keys == after.Keys;
  }

  lemma NudgedMore(tracked: Res.Tracked, targets: set<ContextKey>, bucket: int, k: ContextKey)
    requires k !in targets
    ensures Nudged(tracked, targets, bucket).Update(k, bucket as real) == Nudged(tracked, targets + {k}, bucket)
  {}

  lemma ZeroMore(cm: ContextMetrics, targets: set<ContextKey>, bucket: int, k: ContextKey)
    requires k !in targets
    ensures AddSample(S.WithZeros(cm, targets, bucket), k, ZeroSample(bucket)) == S.WithZeros(cm, targets + {k}, bucket)
  {
    var now := S.WithZeros(cm, targets, bucket);
    assert SamplesOf(now, k) == SamplesOf(cm, k);
  }

  lemma NoZeros(cm: ContextMetrics, bucket: int)
    ensures S.WithZeros(cm, {}, bucket) == cm
  {
    assert forall k :: k in cm ==> cm[k] + [] == cm[k];
  }

  /** The three things that `countersSampleZeroValue` updates. */
  datatype Zeroing = Zeroing(metrics: ContextMetrics, toDelete: set<ContextKey>, tracked: Res.Tracked) {
    /** After the counters in `seen` were visited, of which those in `live` get a zero. */
    ghost function After(live: set<ContextKey>, seen: set<ContextKey>, bucket: int): Zeroing {
      Zeroing(S.WithZeros(metrics, live * seen, bucket), toDelete + (seen - live), Nudged(tracked, live * seen, bucket))
    }

    lemma Start(live: set<ContextKey>, all: set<ContextKey>, bucket: int)
      ensures After(live, all - all, bucket) == this
    {
      assert live * (all - all) == {} && all - all - live == {};
      NoZeros(metrics, bucket);
      assert Nudged(tracked, {}, bucket) == tracked;
    }

    lemma More(live: set<ContextKey>, all: set<ContextKey>, todo: set<ContextKey>, k: ContextKey, bucket: int)
      requires todo <= all && k in todo
      ensures After(live, all - (todo - {k}), bucket) ==
              var now := After(live, all - todo, bucket);
              if k in live then
                now.(metrics := AddSample(now.metrics, k, ZeroSample(bucket)), tracked := now.tracked.Update(k, bucket as real))
              else now.(toDelete := now.toDelete + {k})
    {
      var seen := all - todo;
      assert all - (todo - {k}) == seen + {k};
      if k in live {
        assert live * (seen + {k}) == live * seen + {k} && seen + {k} - live == seen - live;
        ZeroMore(metrics, live * seen, bucket, k);
        NudgedMore(tracked, live * seen, bucket, k);
      } else {
        assert live * (seen + {k}) == live * seen && seen + {k} - live == (seen - live) + {k};
      }
    }

    lemma Done(live: set<ContextKey>, all: set<ContextKey>, bucket: int)
      requires live <= all
      ensures After(live, all - {}, bucket) == Zeroing(S.WithZeros(metrics, live, bucket), toDelete + (all - live), Nudged(tracked, live, bucket))
    {
      assert live * (all - {}) == live;
      assert all - {} == all;
    }
  }

  /** The state once `flushSeries` has emitted the given buckets. */
  ghost function AfterSeries(p: S.Params, s: S.State, buckets: set<int>): S.State {
    s.(tracked := S.BumpedTracked(p, s, buckets), metrics := s.metrics - buckets, counters := S.KeptCounters(p, s, buckets))
  }

  /** The counters found expired at one of the buckets. */
  ghost function Dead(p: S.Params, s: S.State, buckets: set<int>): set<ContextKey> {
    set k | k in s.counters && exists b :: b in buckets && k !in S.ZeroTargets(p, s, b)
  }

  /** What `flushSeries` has updated once the buckets `done` are emitted: pending metrics, contexts, counters to delete. */
  ghost function Progress(p: S.Params, s: S.State, done: set<int>): (map<int, ContextMetrics>, Res.Tracked, set<ContextKey>) {
    (s.metrics - done, S.BumpedTracked(p, s, done), Dead(p, s, done))
  }

  lemma NoProgress(p: S.Params, s: S.State)
    ensures Progress(p, s, {}) == (s.metrics, s.tracked, {})
    ensures S.EmittedAt(p, s, {}) == map[]
  {
    assert s.metrics - {} == s.metrics;
    assert S.BumpedTracked(p, s, {}).lastSeen == s.tracked.lastSeen;
    assert Dead(p, s, {}) == {};
  }

  lemma MoreProgress(p: S.Params, s: S.State, done: set<int>, bucket: int)
    requires bucket !in done
    ensures var (metrics, tracked, dead) := Progress(p, s, done);
            var targets := S.LiveCounters(p.expiry, s.counters, bucket);
            && Progress(p, s, done + {bucket})
               == (metrics - {bucket}, Nudged(tracked, targets, bucket), dead + (s.counters.Keys - targets))
            && S.MetricsAt(s, bucket) == (if bucket in metrics then metrics[bucket] else map[])
  {
    NudgedIsBumped(p, s, done, bucket);
    assert s.metrics - done - {bucket} == s.metrics - (done + {bucket});
    DeadMore(p, s, done, bucket);
  }

  lemma DeadMore(p: S.Params, s: S.State, done: set<int>, bucket: int)
    ensures Dead(p, s, done + {bucket}) == Dead(p, s, done) + (s.counters.Keys - S.ZeroTargets(p, s, bucket))
  {
    assert bucket in done + {bucket};
    assert forall b :: b in done ==> b in done + {bucket};
  }

  lemma MoreRaw(p: S.Params, s: S.State, done: set<int>, bucket: int, raw: seq<RawSerie>, more: seq<RawSerie>,
                seriesOf: seq<MetricSample> -> seq<MetricPoint>)
    requires bucket !in done && RawOf(raw, S.EmittedAt(p, s, done), seriesOf)
    requires RawOf(more, map[bucket := S.WithZeros(S.MetricsAt(s, bucket), S.LiveCounters(p.expiry, s.counters, bucket), bucket)], seriesOf)
    ensures RawOf(raw + more, S.EmittedAt(p, s, done + {bucket}), seriesOf)
  {
    var cm := S.WithZeros(S.MetricsAt(s, bucket), S.ZeroTargets(p, s, bucket), bucket);
    var emitted := S.EmittedAt(p, s, done);
    assert bucket !in emitted;
    EmittedMore(p, s, done, bucket);
    RawOfMore(raw, emitted, more, bucket, cm, seriesOf);
  }

  lemma EmittedMore(p: S.Params, s: S.State, done: set<int>, bucket: int)
    ensures S.EmittedAt(p, s, done + {bucket}) ==
            S.EmittedAt(p, s, done)[bucket := S.WithZeros(S.MetricsAt(s, bucket), S.ZeroTargets(p, s, bucket), bucket)]
  {}

  /** One more bucket: what the source has updated before and after, as plain values. */
  lemma BucketDone(p: S.Params, s: S.State, done: set<int>, bucket: int,
                   metrics: map<int, ContextMetrics>, tracked: Res.Tracked, dead: set<ContextKey>, raw: seq<RawSerie>,
                   cm: ContextMetrics, tracked': Res.Tracked, dead': set<ContextKey>, more: seq<RawSerie>,
                   seriesOf: seq<MetricSample> -> seq<MetricPoint>)
    requires bucket !in done && (metrics, tracked, dead) == Progress(p, s, done)
    requires cm == if bucket in metrics then metrics[bucket] else map[]
    requires RawOf(raw, S.EmittedAt(p, s, done), seriesOf)
    requires var targets := S.LiveCounters(p.expiry, s.counters, bucket);
             && RawOf(more, map[bucket := S.WithZeros(cm, targets, bucket)], seriesOf)
             && dead' == dead + (s.counters.Keys - targets)
             && tracked' == Nudged(tracked, targets, bucket)
    ensures (metrics - {bucket}, tracked', dead') == Progress(p, s, done + {bucket})
    ensures RawOf(raw + more, S.EmittedAt(p, s, done + {bucket}), seriesOf)
  {
    MoreProgress(p, s, done, bucket);
    MoreRaw(p, s, done, bucket, raw, more, seriesOf);
  }

  /** The buckets done, when one more bucket has been looked at. */
  lemma ClosingMore(p: S.Params, s: S.State, cutoff: int, todo: set<int>, bucket: int)
    requires s.metrics != map[] && bucket in todo && todo <= s.metrics.Keys
    ensures var closing := S.Closing(p, s, cutoff);
            && bucket !in closing - todo
            && closing - (todo - {bucket}) ==
               (closing - todo) + if S.StillOpen(bucket, cutoff, p.interval) then {} else {bucket}
  {}

  lemma KeptAreLive(p: S.Params, s: S.State, buckets: set<int>)
    ensures s.counters - Dead(p, s, buckets) == S.KeptCounters(p, s, buckets)
  {}

  class TimeSampler {
    const interval: S.Interval
    const expirySeconds: real
    /** pkg/metrics: the points that the metric built from these samples flushes to. */
    const seriesOf: seq<MetricSample> -> seq<MetricPoint>
    const contextResolver: Res.Resolver
    const sketchMap: SketchMap.Map
    var metricsByTimestamp: map<int, ContextMetrics>
    var counterLastSampledByContext: map<ContextKey, real>
    var lastCutOffTime: int

    ghost function P(): S.Params {
      S.Params(interval, expirySeconds, contextResolver.hash)
    }

    ghost function State(): S.State
      reads this, contextResolver, sketchMap
    {
      S.State(contextResolver.State(), metricsByTimestamp, counterLastSampledByContext, lastCutOffTime, sketchMap.m)
    }

    constructor (interval: nat, expirySeconds: real, hash: Context -> ContextKey, seriesOf: seq<MetricSample> -> seq<MetricPoint>)
      ensures State() == S.INITIAL && fresh(contextResolver) && fresh(sketchMap)
      ensures P() == S.Params(if interval == 0 then S.BUCKET_SIZE else interval, expirySeconds, hash)
    {
      this.interval := if interval == 0 then S.BUCKET_SIZE else interval;
      this.expirySeconds := expirySeconds;
      this.seriesOf := seriesOf;
      contextResolver := new Res.Resolver(hash);
      sketchMap := new SketchMap.Map();
      metricsByTimestamp := map[];
      counterLastSampledByContext := map[];
      lastCutOffTime := 0;
    }

    method AddSample(metricSample: MetricSample, timestamp: real)
      modifies this, contextResolver, sketchMap
      ensures State() == S.AddedSample(P(), old(State()), metricSample, timestamp)
    {
      var contextKey := contextResolver.TrackContext(ContextOf(metricSample), timestamp);
      var bucketStart := S.BucketStart(timestamp, interval);
      if metricSample.mtype == DistributionType {
        var _ := sketchMap.Insert(bucketStart, contextKey, metricSample.value, metricSample.sampleRate);
      } else {
        if bucketStart !in metricsByTimestamp {
          metricsByTimestamp := metricsByTimestamp[bucketStart := map[]];
        }
        var bucketMetrics := metricsByTimestamp[bucketStart];
        if metricSample.mtype == CounterType {
          counterLastSampledByContext := counterLastSampledByContext[contextKey := timestamp];
        }
        metricsByTimestamp := metricsByTimestamp[bucketStart := Metrics.AddSample(bucketMetrics, contextKey, Arrived(metricSample, timestamp))];
      }
    }

    /** The bucket and the set of counters to delete are the two maps that the source updates through its arguments. */
    method CountersSampleZeroValue(timestamp: int, contextMetrics: ContextMetrics, toDelete: set<ContextKey>)
      returns (contextMetrics': ContextMetrics, toDelete': set<ContextKey>)
      modifies contextResolver
      ensures var targets := S.LiveCounters(expirySeconds, counterLastSampledByContext, timestamp);
              && contextMetrics' == S.WithZeros(contextMetrics, targets, timestamp)
              && toDelete' == toDelete + (counterLastSampledByContext.Keys - targets)
              && contextResolver.State() == Nudged(old(contextResolver.State()), targets, timestamp)
    {
      contextMetrics', toDelete' := contextMetrics, toDelete;
      ghost var start := Zeroing(contextMetrics, toDelete, contextResolver.State());
      var counters := counterLastSampledByContext;
      var todo := counters.Keys;
      start.Start(S.LiveCounters(expirySeconds, counters, timestamp), counters.Keys, timestamp);
      while todo != {}
        invariant todo <= counters.Keys
        invariant Zeroing(contextMetrics', toDelete', contextResolver.State())
               == start.After(S.LiveCounters(expirySeconds, counters, timestamp), counters.Keys - todo, timestamp)
        decreases |todo|
      {
        var k := Pick(todo);
        start.More(S.LiveCounters(expirySeconds, counters, timestamp), counters.Keys, todo, k, timestamp);
        if expirySeconds + counters[k] > timestamp as real {
          contextMetrics' := Metrics.AddSample(contextMetrics', k, ZeroSample(timestamp));
          var _ := contextResolver.UpdateTrackedContext(k, timestamp as real);
        } else {
          toDelete' := toDelete' + {k};
        }
        todo := todo - {k};
      }
      start.Done(S.LiveCounters(expirySeconds, counters, timestamp), counters.Keys, timestamp);
    }

    /** One bucket of `flushSeries`: zero samples for the live counters, then the series of the bucket. */
    method FlushBucket(bucket: int, contextMetrics: ContextMetrics, toDelete: set<ContextKey>)
      returns (raw: seq<RawSerie>, toDelete': set<ContextKey>)
      modifies contextResolver
      ensures var targets := S.LiveCounters(expirySeconds, counterLastSampledByContext, bucket);
              && RawOf(raw, map[bucket := S.WithZeros(contextMetrics, targets, bucket)], seriesOf)
              && toDelete' == toDelete + (counterLastSampledByContext.Keys - targets)
              && contextResolver.State() == Nudged(old(contextResolver.State()), targets, bucket)
    {
      var contextMetrics';
      contextMetrics', toDelete' := CountersSampleZeroValue(bucket, contextMetrics, toDelete);
      raw := FlushContextMetrics(bucket, contextMetrics', seriesOf);
    }

    /** Emits and drops one bucket; the ghost arguments are the state of the flush so far. */
    method CloseBucket(bucket: int, toDelete: set<ContextKey>, ghost s0: S.State, ghost done: set<int>, ghost raw: seq<RawSerie>)
      returns (more: seq<RawSerie>, toDelete': set<ContextKey>)
      requires bucket in metricsByTimestamp && bucket !in done && s0.counters == counterLastSampledByContext
      requires (metricsByTimestamp, contextResolver.State(), toDelete) == Progress(P(), s0, done)
      requires RawOf(raw, S.EmittedAt(P(), s0, done), seriesOf)
      modifies this`metricsByTimestamp, contextResolver
      ensures metricsByTimestamp == old(metricsByTimestamp) - {bucket}
      ensures (metricsByTimestamp, contextResolver.State(), toDelete') == Progress(P(), s0, done + {bucket})
      ensures RawOf(raw + more, S.EmittedAt(P(), s0, done + {bucket}), seriesOf)
    {
      var contextMetrics := metricsByTimestamp[bucket];
      ghost var tracked := contextResolver.State();
      more, toDelete' := FlushBucket(bucket, contextMetrics, toDelete);
      BucketDone(P(), s0, done, bucket, metricsByTimestamp, tracked, toDelete, raw,
                 contextMetrics, contextResolver.State(), toDelete', more, seriesOf);
      metricsByTimestamp := metricsByTimestamp - {bucket};
    }

    /** The loop of `flushSeries` over the pending buckets. */
    method FlushClosed(cutoffTime: int) returns (raw: seq<RawSerie>, toDelete: set<ContextKey>)
      requires metricsByTimestamp != map[]
      modifies this`metricsByTimestamp, contextResolver
      ensures (metricsByTimestamp, contextResolver.State(), toDelete)
           == Progress(P(), old(State()), S.Closing(P(), old(State()), cutoffTime))
      ensures RawOf(raw, S.EmittedAt(P(), old(State()), S.Closing(P(), old(State()), cutoffTime)), seriesOf)
    {
      ghost var p, s0 := P(), State();
      ghost var closing := S.Closing(p, s0, cutoffTime);
      raw, toDelete := [], {};
      NoProgress(p, s0);
      ghost var done: set<int> := {};
      var todo: set<int> := metricsByTimestamp.Keys;
      while todo != {}
        invariant todo <= s0.metrics.Keys && done == closing - todo
        invariant (metricsByTimestamp, contextResolver.State(), toDelete) == Progress(p, s0, done)
        invariant RawOf(raw, S.EmittedAt(p, s0, done), seriesOf)
        decreases |todo|
      {
        var bucketTimestamp := Pick(todo);
        ClosingMore(p, s0, cutoffTime, todo, bucketTimestamp);
        todo := todo - {bucketTimestamp};
        if !S.StillOpen(bucketTimestamp, cutoffTime, interval) {
          var more;
          more, toDelete := CloseBucket(bucketTimestamp, toDelete, s0, done, raw);
          raw := raw + more;
          done := done + {bucketTimestamp};
        }
      }
      assert done == closing;
    }

    /** The other branch: no metric is pending, so the idle counters are emitted in a recreated bucket. */
    method FlushIdle(cutoffTime: int) returns (raw: seq<RawSerie>, toDelete: set<ContextKey>)
      requires metricsByTimestamp == map[] && lastCutOffTime + interval <= cutoffTime
      modifies contextResolver
      ensures (metricsByTimestamp, contextResolver.State(), toDelete)
           == Progress(P(), old(State()), S.Closing(P(), old(State()), cutoffTime))
      ensures RawOf(raw, S.EmittedAt(P(), old(State()), S.Closing(P(), old(State()), cutoffTime)), seriesOf)
    {
      ghost var p, s0 := P(), State();
      var bucket := cutoffTime - interval;
      NoProgress(p, s0);
      raw, toDelete := FlushBucket(bucket, map[], {});
      BucketDone(p, s0, {}, bucket, map[], s0.tracked, {}, [], map[], contextResolver.State(), toDelete, raw, seriesOf);
      assert {} + {bucket} == S.Closing(p, s0, cutoffTime) && [] + raw == raw;
      assert metricsByTimestamp - {bucket} == metricsByTimestamp;
    }

    method FlushSeries(cutoffTime: int) returns (series: seq<Serie>, ghost raw: seq<RawSerie>)
      modifies this, contextResolver
      ensures State() == AfterSeries(P(), old(State()), S.Closing(P(), old(State()), cutoffTime))
      ensures RawOf(raw, S.FlushedMetrics(P(), old(State()), cutoffTime), seriesOf)
      ensures Merged(series, raw, State().tracked.contexts, interval)
    {
      ghost var p, s0 := P(), State();
      var rawSeries: seq<RawSerie> := [];
      var toDelete: set<ContextKey> := {};
      if metricsByTimestamp != map[] {
        rawSeries, toDelete := FlushClosed(cutoffTime);
      } else if lastCutOffTime + interval <= cutoffTime {
        rawSeries, toDelete := FlushIdle(cutoffTime);
      } else {
        NoProgress(p, s0);
      }
      KeptAreLive(p, s0, S.Closing(p, s0, cutoffTime));
      counterLastSampledByContext := counterLastSampledByContext - toDelete;
      series := MergeSeries(rawSeries, contextResolver.contextsByKey, interval);
      raw := rawSeries;
    }

    method FlushSketches(cutoffTime: int) returns (r: Result<seq<SketchSeries>>, ghost points: seq<SketchMap.SketchPoint>)
      modifies sketchMap
      ensures sketchMap.m == old(sketchMap.m) - SketchMap.Before(old(sketchMap.m), cutoffTime)
      ensures SketchMap.Lists(points, old(sketchMap.m), SketchMap.Before(old(sketchMap.m), cutoffTime))
      ensures r.Ok? <==> forall k :: SketchPointsOf(points, k) != [] ==> k in contextResolver.contextsByKey
      ensures r.Ok? ==> SketchesMerged(r.value, points, contextResolver.contextsByKey, interval)
    {
      var flushed := sketchMap.FlushBefore(cutoffTime);
      var pointsByCtx := GroupPoints(flushed);
      r := LabelSketches(pointsByCtx, contextResolver.contextsByKey, interval, flushed);
      points := flushed;
    }

    /**
     The result is an error exactly when the source would read a missing context. Otherwise the new
     state is the specified one, the series hold exactly the flushed metrics of tracked contexts,
     and the sketch series hold exactly the flushed sketches.
     */
    method Flush(timestamp: real)
      returns (r: Result<(seq<Serie>, seq<SketchSeries>)>, ghost raw: seq<RawSerie>, ghost points: seq<SketchMap.SketchPoint>)
      modifies this, contextResolver, sketchMap
      ensures var cutoff := S.BucketStart(timestamp, interval);
              && RawOf(raw, S.FlushedMetrics(P(), old(State()), cutoff), seriesOf)
              && SketchMap.Lists(points, old(State()).sketches, SketchMap.Before(old(State()).sketches, cutoff))
      ensures r.Ok? <==> forall k :: SketchPointsOf(points, k) != [] ==> k in old(State()).tracked.contexts
      ensures r.Ok? ==>
                && State() == S.Flushed(P(), old(State()), timestamp)
                && Merged(r.value.0, raw, old(State()).tracked.contexts, interval)
                && SketchesMerged(r.value.1, points, old(State()).tracked.contexts, interval)
    {
      var cutoffTime := S.BucketStart(timestamp, interval);
      var series, sketches;
      ghost var contexts := contextResolver.contextsByKey;
      series, raw := FlushSeries(cutoffTime);
      assert contextResolver.contextsByKey == State().tracked.contexts == contexts;
      sketches, points := FlushSketches(cutoffTime);
      if sketches.Err? {
        return Err, raw, points;
      }
      var _ := contextResolver.ExpireContexts(timestamp - S.DEFAULT_EXPIRY);
      lastCutOffTime := cutoffTime;
      r := Ok((series, sketches.value));
    }
  }

  /**
   What the contract of `Flush` gives on an ordered run with room for one bucket before the expiry:
   it never fails, and every flushed point reaches the serie of its signature.
   */
  lemma ReportsEverything(p: S.Params, ops: seq<Runs.Op>, i: nat, raw: seq<RawSerie>, series: seq<Serie>,
                          points: seq<SketchMap.SketchPoint>, seriesOf: seq<MetricSample> -> seq<MetricPoint>)
    requires Runs.Ordered(p, ops) && Runs.SamplesAfterEpoch(ops) && Runs.FlushAt(ops, i)
    requires p.interval as real <= S.DEFAULT_EXPIRY && p.expiry + p.interval as real <= S.DEFAULT_EXPIRY
    requires var s, cutoff := Runs.Run(p, ops[..i]), S.BucketStart(ops[i].t, p.interval);
             && RawOf(raw, S.FlushedMetrics(p, s, cutoff), seriesOf)
             && Merged(series, raw, s.tracked.contexts, p.interval)
             && SketchMap.Lists(points, s.sketches, SketchMap.Before(s.sketches, cutoff))
    ensures forall r :: r in raw ==>
              exists j :: 0 <= j < |series| && series[j].signature == r.signature && r.point in series[j].points
    ensures forall k :: SketchPointsOf(points, k) != [] ==> k in Runs.Run(p, ops[..i]).tracked.contexts
  {
    var s, cutoff := Runs.Run(p, ops[..i]), S.BucketStart(ops[i].t, p.interval);
    Expiry.FlushComplete(p, ops, i);
    forall r | r in raw
      ensures exists j :: 0 <= j < |series| && series[j].signature == r.signature && r.point in series[j].points
    {
      RawForKeeps(raw, r);
      PointsOfKeeps(raw, r);
      assert r.signature.key in S.FlushedMetrics(p, s, cutoff)[r.bucket];
      assert r.signature.key in s.tracked.contexts;
    }
    forall k | SketchPointsOf(points, k) != []
      ensures k in s.tracked.contexts
    {
      SketchPointsOfGiven(points, k);
    }
  }

  // ----- the times of the points -----

  /** What the run accepts for a bucket arrived within it. */
  lemma {:induction false} AcceptedTimes(p: S.Params, ops: seq<Runs.Op>, bucket: int, k: ContextKey, x: MetricSample)
    requires Runs.SamplesAfterEpoch(ops) && x in Runs.AcceptedMetrics(p, ops, bucket, k)
    ensures bucket as real <= x.timestamp < (bucket + p.interval) as real
  {
    var op := ops[|ops| - 1];
    if x in Runs.AcceptedMetrics(p, Runs.Prefix(ops), bucket, k) {
      AcceptedTimes(p, Runs.Prefix(ops), bucket, k, x);
    } else {
      Runs.BucketStartFacts(op.t, p.interval);
    }
  }

  lemma ClosedInTime(p: S.Params, s: S.State, t: real, bucket: int)
    requires bucket in S.Closing(p, s, S.BucketStart(t, p.interval))
    ensures bucket + p.interval <= S.BucketStart(t, p.interval)
  {}

  /** So did everything that a flush emits for it; a zero sample has the time of the bucket. */
  lemma FlushedTimes(p: S.Params, ops: seq<Runs.Op>, i: nat, bucket: int, k: ContextKey, x: MetricSample)
    requires Runs.Ordered(p, ops) && Runs.SamplesAfterEpoch(ops) && Runs.FlushAt(ops, i)
    requires var s, cutoff := Runs.Run(p, ops[..i]), S.BucketStart(ops[i].t, p.interval);
             bucket in S.Closing(p, s, cutoff) && x in SamplesOf(S.FlushedMetrics(p, s, cutoff)[bucket], k)
    ensures bucket as real <= x.timestamp < (bucket + p.interval) as real
  {
    Runs.CompleteBuckets(p, ops, i, bucket, k);
    if x in Runs.AcceptedMetrics(p, ops, bucket, k) {
      AcceptedTimes(p, ops, bucket, k, x);
    } else {
      assert x == ZeroSample(bucket);
    }
  }

  /** What flush `i` of the run gives out: the raw series of the metrics it flushes, and the points of its sketches. */
  ghost predicate Emits(p: S.Params, ops: seq<Runs.Op>, i: nat, raw: seq<RawSerie>, points: seq<SketchMap.SketchPoint>,
                        seriesOf: seq<MetricSample> -> seq<MetricPoint>)
    requires Runs.FlushAt(ops, i)
  {
    var s, cutoff := Runs.Run(p, ops[..i]), S.BucketStart(ops[i].t, p.interval);
    && RawOf(raw, S.FlushedMetrics(p, s, cutoff), seriesOf)
    && SketchMap.Lists(points, s.sketches, SketchMap.Before(s.sketches, cutoff))
  }

  lemma PointInBucket(p: S.Params, ops: seq<Runs.Op>, i: nat, raw: seq<RawSerie>, seriesOf: seq<MetricSample> -> seq<MetricPoint>, r: RawSerie)
    requires Runs.Ordered(p, ops) && Runs.SamplesAfterEpoch(ops) && Runs.FlushAt(ops, i) && OwnTimes(seriesOf) && r in raw
    requires RawOf(raw, S.FlushedMetrics(p, Runs.Run(p, ops[..i]), S.BucketStart(ops[i].t, p.interval)), seriesOf)
    ensures r.bucket in S.Closing(p, Runs.Run(p, ops[..i]), S.BucketStart(ops[i].t, p.interval))
    ensures r.bucket as real <= r.point.ts < S.BucketStart(ops[i].t, p.interval) as real
  {
    var s, cutoff := Runs.Run(p, ops[..i]), S.BucketStart(ops[i].t, p.interval);
    var flushed, k := S.FlushedMetrics(p, s, cutoff), r.signature.key;
    PointTimes(raw, flushed, seriesOf, r);
    ClosedInTime(p, s, ops[i].t, r.bucket);
    if r.point.ts != r.bucket as real {
      var x: MetricSample :| x in flushed[r.bucket][k] && r.point.ts == x.timestamp;
      FlushedTimes(p, ops, i, r.bucket, k, x);
    }
  }

  /** Every point of flush `i`, of a serie or of a sketch, zero points included, has a time from the previous cutoff up to its own. */
  lemma PointWindow(p: S.Params, ops: seq<Runs.Op>, i: nat, raw: seq<RawSerie>, points: seq<SketchMap.SketchPoint>,
                    seriesOf: seq<MetricSample> -> seq<MetricPoint>)
    requires Runs.Ordered(p, ops) && Runs.SamplesAfterEpoch(ops) && Runs.FlushAt(ops, i) && OwnTimes(seriesOf)
    requires Emits(p, ops, i, raw, points, seriesOf)
    ensures var cutoff, last := S.BucketStart(ops[i].t, p.interval), Runs.LastFlush(ops[..i]);
            && (forall r :: r in raw ==>
                  r.point.ts < cutoff as real && (last.Some? ==> S.BucketStart(last.value, p.interval) as real <= r.point.ts))
            && (forall q :: q in points ==> q.ts < cutoff && (last.Some? ==> S.BucketStart(last.value, p.interval) <= q.ts))
  {
    var s, cutoff, last := Runs.Run(p, ops[..i]), S.BucketStart(ops[i].t, p.interval), Runs.LastFlush(ops[..i]);
    forall r | r in raw
      ensures r.point.ts < cutoff as real && (last.Some? ==> S.BucketStart(last.value, p.interval) as real <= r.point.ts)
    {
      PointInBucket(p, ops, i, raw, seriesOf, r);
      Runs.BucketInWindow(p, ops, i, r.bucket);
    }
    forall q | q in points
      ensures q.ts < cutoff && (last.Some? ==> S.BucketStart(last.value, p.interval) <= q.ts)
    {
      Runs.BucketInWindow(p, ops, i, q.ts);
    }
  }

  /** Time only moves forward from one flush to a later one: no two flushes emit points with the same time. */
  lemma PointsAdvance(p: S.Params, ops: seq<Runs.Op>, i: nat, j: nat, seriesOf: seq<MetricSample> -> seq<MetricPoint>,
                      raw: seq<RawSerie>, points: seq<SketchMap.SketchPoint>,
                      raw': seq<RawSerie>, points': seq<SketchMap.SketchPoint>)
    requires Runs.Ordered(p, ops) && Runs.SamplesAfterEpoch(ops) && OwnTimes(seriesOf)
    requires Runs.FlushAt(ops, i) && Runs.FlushAt(ops, j) && i < j
    requires Emits(p, ops, i, raw, points, seriesOf) && Emits(p, ops, j, raw', points', seriesOf)
    ensures forall r, r' :: r in raw && r' in raw' ==> r.point.ts < r'.point.ts
    ensures forall q, q' :: q in points && q' in points' ==> q.ts < q'.ts
  {
    PointWindow(p, ops, i, raw, points, seriesOf);
    PointWindow(p, ops, j, raw', points', seriesOf);
    Runs.OrderedPrefix(p, ops, j);
    Runs.LastFlushAfter(p, ops[..j], i);
    Runs.BucketStartMonotone(ops[i].t, Runs.LastFlush(ops[..j]).value, p.interval);
  }
}
