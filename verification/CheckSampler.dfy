/** pkg/aggregator/check_sampler.go: series, histogram buckets and sketches, proved equal to CheckSamplerRuns. */
module CheckSampler {
  import opened Metrics
  import opened Wrappers
  import opened Series
  import SketchMap
  import Res = ContextResolver
  import SamplerState
  import M = CheckSamplerRuns

  const CHECKS_SOURCE_TYPE := "System"

  /** A serie of a check has no interval, and the source type that metrics of checks need. */
  function CheckSerie(c: Context, r: RawSerie): Serie {
    Labelled(c, 0, r.signature, [r.point]).(sourceType := CHECKS_SOURCE_TYPE)
  }

  /** The raw series of tracked contexts, each under the name, tags and host of its context; the others are dropped. */
  function LabelledSeries(raw: seq<RawSerie>, contexts: map<ContextKey, Context>): seq<Serie> {
    if raw == [] then []
    else
      var r := raw[|raw| - 1];
      LabelledSeries(raw[..|raw| - 1], contexts) +
      if r.signature.key in contexts then [CheckSerie(contexts[r.signature.key], r)] else []
  }

  /** Each tracked raw serie is labelled once and in order: the labelled points of a signature are its raw points. */
  lemma {:induction false} LabelledPoints(raw: seq<RawSerie>, contexts: map<ContextKey, Context>, sig: Signature)
    ensures SeriesPoints(LabelledSeries(raw, contexts), sig) == if sig.key in contexts then PointsOf(raw, sig) else []
  {
    if raw != [] {
      var front, r := raw[..|raw| - 1], raw[|raw| - 1];
      LabelledPoints(front, contexts, sig);
      var before := LabelledSeries(front, contexts);
      if r.signature.key in contexts {
        var serie := CheckSerie(contexts[r.signature.key], r);
        assert (before + [serie])[..|before|] == before;
      } else {
        assert before + [] == before;
      }
    }
  }

  /** Every labelled serie bears the name of its context with the suffix, its tags and host, no interval and the type of checks. */
  lemma {:induction false} CheckSerieSays(raw: seq<RawSerie>, contexts: map<ContextKey, Context>)
    ensures forall s :: s in LabelledSeries(raw, contexts) ==>
              var k := s.signature.key;
              && k in contexts && s.name == contexts[k].name + s.signature.suffix && s.tags == contexts[k].tags
              && s.host == contexts[k].host && s.interval == 0 && s.sourceType == "System" && |s.points| == 1
  {
    if raw != [] {
      CheckSerieSays(raw[..|raw| - 1], contexts);
    }
  }

  function SeriesPoints(series: seq<Serie>, sig: Signature): seq<Point> {
    if series == [] then []
    else
      var last := series[|series| - 1];
      SeriesPoints(series[..|series| - 1], sig) + if last.signature == sig then last.points else []
  }

  class CheckSampler {
    var series: seq<Serie>
    var sketches: seq<SketchSeries>
    const contextResolver: Res.Resolver
    const sketchMap: SketchMap.Map
    var lastBucketValue: map<ContextKey, int>
    var lastSeenBucket: map<ContextKey, real>

    ghost function State(): M.State
      reads this, contextResolver, sketchMap
    {
      M.State(contextResolver.State(), sketchMap.m, lastBucketValue, lastSeenBucket)
    }

    constructor (hash: Context -> ContextKey)
      ensures State() == M.INITIAL && series == [] && sketches == []
      ensures fresh(contextResolver) && fresh(sketchMap) && contextResolver.hash == hash
    {
      series, sketches := [], [];
      contextResolver := new Res.Resolver(hash);
      sketchMap := new SketchMap.Map();
      lastBucketValue := map[];
      lastSeenBucket := map[];
    }

    /** `now` is the clock the source reads twice. */
    method AddBucket(bucket: M.HistogramBucket, now: real)
      modifies this, contextResolver, sketchMap
      ensures State() == M.AddedBucket(contextResolver.hash, old(State()), bucket, now)
      ensures sketches == old(sketches) && series == old(series)
    {
      if bucket.value < 0 {
        return;
      }
      if bucket.value == 0 {
        return;
      }
      if M.NegativeRange(bucket.lower, bucket.upper) {
        return;
      }
      var contextKey := contextResolver.TrackContext(M.BucketContext(bucket), bucket.timestamp);
      var value := bucket.value;
      if bucket.monotonic {
        var rawValue := value;
        if contextKey in lastBucketValue {
          lastSeenBucket := lastSeenBucket[contextKey := now];
          value := rawValue - lastBucketValue[contextKey];
        }
        lastBucketValue := lastBucketValue[contextKey := rawValue];
        lastSeenBucket := lastSeenBucket[contextKey := now];
      }
      assert M.State(contextResolver.State(), sketchMap.m, lastBucketValue, lastSeenBucket)
          == M.AddedBucket(contextResolver.hash, old(State()), bucket, now).(sketches := sketchMap.m);
      if value < 0 {
        return;
      }
      if value == 0 {
        return;
      }
      if bucket.upper.PosInf? {
        var _ := sketchMap.InsertInterp(SamplerState.Truncate(bucket.timestamp), contextKey, bucket.lower, bucket.lower, value);
        return;
      }
      var _ := sketchMap.InsertInterp(SamplerState.Truncate(bucket.timestamp), contextKey, bucket.lower, bucket.upper, value);
    }

    /** `raw` is what flushing the metrics of the check gave. */
    method CommitSeries(raw: seq<RawSerie>)
      modifies this`series
      ensures series == old(series) + LabelledSeries(raw, contextResolver.contextsByKey)
    {
      ghost var contexts := contextResolver.contextsByKey;
      for n := 0 to |raw|
        invariant contextResolver.contextsByKey == contexts
        invariant series == old(series) + LabelledSeries(raw[..n], contexts)
      {
        assert raw[..n + 1][..n] == raw[..n];
        var key := raw[n].signature.key;
        if key in contextResolver.contextsByKey {
          series := series + [CheckSerie(contextResolver.contextsByKey[key], raw[n])];
        }
      }
      assert raw[..|raw|] == raw;
    }

    method CommitSketches(timestamp: real) returns (ok: bool, ghost points: seq<SketchMap.SketchPoint>)
      modifies this`sketches, sketchMap
      ensures sketchMap.m == old(sketchMap.m) - SketchMap.Before(old(sketchMap.m), SamplerState.Truncate(timestamp))
      ensures SketchMap.Lists(points, old(sketchMap.m), SketchMap.Before(old(sketchMap.m), SamplerState.Truncate(timestamp)))
      ensures ok <==> forall k :: SketchPointsOf(points, k) != [] ==> k in contextResolver.contextsByKey
      ensures old(sketches) <= sketches
      ensures if ok then SketchesMerged(sketches[|old(sketches)|..], points, contextResolver.contextsByKey, 0)
              else sketches == old(sketches)
    {
      var flushed := sketchMap.FlushBefore(SamplerState.Truncate(timestamp));
      points := flushed;
      var pointsByCtx := GroupPoints(flushed);
      var labelled := LabelSketches(pointsByCtx, contextResolver.contextsByKey, 0, flushed);
      ok := labelled.Ok?;
      if ok {
        sketches := sketches + labelled.value;
        assert sketches[|old(sketches)|..] == labelled.value;
      }
    }

    /** Fails exactly when the source would read a missing context. */
    method Commit(timestamp: real, raw: seq<RawSerie>) returns (ok: bool, ghost points: seq<SketchMap.SketchPoint>)
      modifies this`series, this`sketches, contextResolver, sketchMap
      ensures series == old(series) + LabelledSeries(raw, old(State()).tracked.contexts)
      ensures SketchMap.Lists(points, old(State()).sketches, SketchMap.Before(old(State()).sketches, SamplerState.Truncate(timestamp)))
      ensures ok <==> forall k :: SketchPointsOf(points, k) != [] ==> k in old(State()).tracked.contexts
      ensures ok ==>
                && State() == M.Committed(old(State()), timestamp)
                && old(sketches) <= sketches
                && SketchesMerged(sketches[|old(sketches)|..], points, old(State()).tracked.contexts, 0)
    {
      CommitSeries(raw);
      ok, points := CommitSketches(timestamp);
      if ok {
        var _ := contextResolver.ExpireContexts(timestamp - SamplerState.DEFAULT_EXPIRY);
      }
    }

    method Flush(now: real) returns (flushedSeries: seq<Serie>, flushed: seq<SketchSeries>)
      modifies this
      ensures flushedSeries == old(series) && flushed == old(sketches) && series == [] && sketches == []
      ensures State() == M.Flushed(old(State()), now)
    {
      flushedSeries, flushed := series, sketches;
      series, sketches := [], [];
      ghost var s := State();
      ghost var gone: set<ContextKey> := {};
      var todo := lastSeenBucket.Keys;
      while todo != {}
        invariant todo <= s.lastSeenBucket.Keys && todo !! gone
        invariant forall k :: k in s.lastSeenBucket && k !in todo ==> (k in gone <==> k in M.Expired(s, now))
        invariant gone <= s.lastSeenBucket.Keys && series == [] && sketches == []
        invariant State() == s.(lastBucketValue := s.lastBucketValue - gone, lastSeenBucket := s.lastSeenBucket - gone)
        decreases |todo|
      {
        var ctxKey := Pick(todo);
        todo := todo - {ctxKey};
        if now - lastSeenBucket[ctxKey] > M.BUCKET_EXPIRY {
          assert s.lastSeenBucket - gone - {ctxKey} == s.lastSeenBucket - (gone + {ctxKey});
          assert s.lastBucketValue - gone - {ctxKey} == s.lastBucketValue - (gone + {ctxKey});
          lastSeenBucket := lastSeenBucket - {ctxKey};
          lastBucketValue := lastBucketValue - {ctxKey};
          gone := gone + {ctxKey};
        }
      }
      assert gone == M.Expired(s, now);
    }
  }
}
