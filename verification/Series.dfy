/** The output side of the samplers: series and sketch series, grouped and labelled with their context. */
module Series {
  import opened Metrics
  import opened SketchMap
  import opened Wrappers

  datatype Point = Point(ts: real, value: Float)

  datatype Signature = Signature(apiType: string, key: ContextKey, suffix: string)

  /** A serie as `ContextMetrics.Flush` returns it: one point, no name yet, and the bucket it was flushed from. */
  datatype RawSerie = RawSerie(bucket: int, signature: Signature, point: Point)

  datatype Serie = Serie(
    name: string,
    tags: seq<string>,
    host: string,
    interval: int,
    sourceType: string,
    signature: Signature,
    points: seq<Point>)

  datatype SketchSeries = SketchSeries(
    name: string,
    tags: seq<string>,
    host: string,
    interval: int,
    key: ContextKey,
    points: seq<SketchPoint>)

  // ----- raw series -----

  function RawAt(bucket: int, k: ContextKey, points: seq<MetricPoint>): seq<RawSerie> {
    seq(|points|, i requires 0 <= i < |points| =>
      RawSerie(bucket, Signature(points[i].apiType, k, points[i].suffix), Point(points[i].ts.GetOr(bucket as real), points[i].value)))
  }

  /** The part of `raw` that comes from one bucket and one context. */
  function RawFor(raw: seq<RawSerie>, bucket: int, k: ContextKey): seq<RawSerie> {
    if raw == [] then []
    else (if raw[0].bucket == bucket && raw[0].signature.key == k then [raw[0]] else []) + RawFor(raw[1..], bucket, k)
  }

  lemma {:induction false} RawForConcat(a: seq<RawSerie>, b: seq<RawSerie>, bucket: int, k: ContextKey)
    ensures RawFor(a + b, bucket, k) == RawFor(a, bucket, k) + RawFor(b, bucket, k)
  {
    if a == [] {
      assert a + b == b;
    } else {
      assert (a + b)[1..] == a[1..] + b;
      RawForConcat(a[1..], b, bucket, k);
    }
  }

  lemma {:induction false} RawForUniform(raw: seq<RawSerie>, bucket: int, k: ContextKey, b: int, j: ContextKey)
    requires forall r :: r in raw ==> r.bucket == b && r.signature.key == j
    ensures RawFor(raw, bucket, k) == if (bucket, k) == (b, j) then raw else []
  {
    if raw != [] {
      assert raw[0] in raw;
      RawForUniform(raw[1..], bucket, k, b, j);
    }
  }

  /**
   `raw` holds exactly the series of the flushed metrics. Only the order between different
   buckets and contexts is left open, because the source iterates over maps.
   */
  ghost predicate RawOf(raw: seq<RawSerie>, flushed: map<int, ContextMetrics>, seriesOf: seq<MetricSample> -> seq<MetricPoint>) {
    forall b, k :: RawFor(raw, b, k) ==
      if b in flushed && k in flushed[b] then RawAt(b, k, seriesOf(flushed[b][k])) else []
  }

  lemma RawOfMore(raw: seq<RawSerie>, flushed: map<int, ContextMetrics>, more: seq<RawSerie>,
                  bucket: int, cm: ContextMetrics, seriesOf: seq<MetricSample> -> seq<MetricPoint>)
    requires RawOf(raw, flushed, seriesOf) && bucket !in flushed && RawOf(more, map[bucket := cm], seriesOf)
    ensures RawOf(raw + more, flushed[bucket := cm], seriesOf)
  {
    forall b, k
      ensures RawFor(raw + more, b, k) ==
        if b in flushed[bucket := cm] && k in flushed[bucket := cm][b] then RawAt(b, k, seriesOf(flushed[bucket := cm][b][k])) else []
    {
      RawForConcat(raw, more, b, k);
    }
  }

  /** `ContextMetrics.Flush`: the series of every context of one bucket. */
  method FlushContextMetrics(bucket: int, cm: ContextMetrics, seriesOf: seq<MetricSample> -> seq<MetricPoint>)
    returns (raw: seq<RawSerie>)
    ensures RawOf(raw, map[bucket := cm], seriesOf)
  {
    raw := [];
    var todo := cm.Keys;
    while todo != {}
      invariant todo <= cm.Keys
      invariant forall b, k ::
        RawFor(raw, b, k) == if b == bucket && k in cm.Keys - todo then RawAt(b, k, seriesOf(cm[k])) else []
      decreases |todo|
    {
      var j := Pick(todo);
      var more := RawAt(bucket, j, seriesOf(cm[j]));
      forall b, k
        ensures RawFor(raw + more, b, k) == RawFor(raw, b, k) + if (b, k) == (bucket, j) then more else []
      {
        RawForConcat(raw, more, b, k);
        RawForUniform(more, b, k, bucket, j);
      }
      raw := raw + more;
      todo := todo - {j};
    }
  }

  lemma {:induction false} RawForKeeps(raw: seq<RawSerie>, r: RawSerie)
    requires r in raw
    ensures r in RawFor(raw, r.bucket, r.signature.key)
  {
    if raw[0] != r {
      RawForKeeps(raw[1..], r);
    }
  }

  /** A point with a time of its own has the time of one of its samples. */
  ghost predicate OwnTimes(seriesOf: seq<MetricSample> -> seq<MetricPoint>) {
    forall xs: seq<MetricSample>, i {:trigger seriesOf(xs)[i]} :: 0 <= i < |seriesOf(xs)| && seriesOf(xs)[i].ts.Some? ==>
      exists x: MetricSample :: x in xs && x.timestamp == seriesOf(xs)[i].ts.value
  }

  /** Every raw serie comes from a flushed metric, and its point has the time of the bucket or of a sample of the metric. */
  lemma PointTimes(raw: seq<RawSerie>, flushed: map<int, ContextMetrics>, seriesOf: seq<MetricSample> -> seq<MetricPoint>, r: RawSerie)
    requires RawOf(raw, flushed, seriesOf) && OwnTimes(seriesOf) && r in raw
    ensures r.bucket in flushed && r.signature.key in flushed[r.bucket]
    ensures r.point.ts == r.bucket as real || exists x :: x in flushed[r.bucket][r.signature.key] && r.point.ts == x.timestamp
  {
    RawForKeeps(raw, r);
    var points := seriesOf(flushed[r.bucket][r.signature.key]);
    var i :| 0 <= i < |points| && RawAt(r.bucket, r.signature.key, points)[i] == r;
    assert points[i].ts.Some? ==> r.point.ts == points[i].ts.value;
  }

  // ----- merging raw series -----

  /** The points of `raw` under one signature, in order. */
  function PointsOf(raw: seq<RawSerie>, signature: Signature): seq<Point> {
    if raw == [] then []
    else
      var last := raw[|raw| - 1];
      PointsOf(raw[..|raw| - 1], signature) + if last.signature == signature then [last.point] else []
  }

  lemma {:induction false} PointsOfKeeps(raw: seq<RawSerie>, r: RawSerie)
    requires r in raw
    ensures r.point in PointsOf(raw, r.signature)
  {
    var front := raw[..|raw| - 1];
    if raw[|raw| - 1] != r {
      assert raw == front + [raw[|raw| - 1]];
      PointsOfKeeps(front, r);
    }
  }

  function Labelled(c: Context, interval: int, signature: Signature, points: seq<Point>): Serie {
    Serie(c.name + signature.suffix, c.tags, c.host, interval, "", signature, points)
  }

  /** One serie per signature of a tracked context, holding all its points under the name of the context. */
  ghost predicate Merged(series: seq<Serie>, raw: seq<RawSerie>, contexts: map<ContextKey, Context>, interval: int) {
    && (forall i, j :: 0 <= i < j < |series| ==> series[i].signature != series[j].signature)
    && (forall i :: 0 <= i < |series| ==> IsLabelled(series[i], raw, contexts, interval))
    && (forall sig: Signature :: sig.key in contexts && PointsOf(raw, sig) != [] ==>
          exists i :: 0 <= i < |series| && series[i].signature == sig)
  }

  method MergeSeries(raw: seq<RawSerie>, contexts: map<ContextKey, Context>, interval: int) returns (series: seq<Serie>)
    ensures Merged(series, raw, contexts, interval)
  {
    series := [];
    var serieBySignature: map<Signature, nat> := map[];
    for n := 0 to |raw|
      invariant MergedSoFar(serieBySignature, series, raw[..n], contexts, interval)
    {
      var sig := raw[n].signature;
      assert raw[..n + 1] == raw[..n] + [raw[n]];
      if sig in serieBySignature {
        var at := serieBySignature[sig];
        PointAdded(serieBySignature, series, raw[..n], raw[n], contexts, interval);
        series := series[at := series[at].(points := series[at].points + [raw[n].point])];
      } else if sig.key in contexts {
        SerieAdded(serieBySignature, series, raw[..n], raw[n], contexts, interval);
        serieBySignature := serieBySignature[sig := |series|];
        series := series + [Labelled(contexts[sig.key], interval, sig, [raw[n].point])];
      } else {
        PointSkipped(serieBySignature, series, raw[..n], raw[n], contexts, interval);
      }
    }
    assert raw[..|raw|] == raw;
  }

  /** The map of the source from each signature to its serie. */
  ghost predicate Indexes(index: map<Signature, nat>, series: seq<Serie>) {
    && (forall sig :: sig in index ==> index[sig] < |series| && series[index[sig]].signature == sig)
    && (forall i :: 0 <= i < |series| ==> series[i].signature in index && index[series[i].signature] == i)
  }

  ghost predicate IsLabelled(serie: Serie, raw: seq<RawSerie>, contexts: map<ContextKey, Context>, interval: int) {
    var sig := serie.signature;
    sig.key in contexts && PointsOf(raw, sig) != [] && serie == Labelled(contexts[sig.key], interval, sig, PointsOf(raw, sig))
  }

  ghost predicate MergedSoFar(index: map<Signature, nat>, series: seq<Serie>, raw: seq<RawSerie>,
                              contexts: map<ContextKey, Context>, interval: int)
  {
    && Indexes(index, series)
    && (forall i :: 0 <= i < |series| ==> IsLabelled(series[i], raw, contexts, interval))
    && (forall sig: Signature :: sig in index <==> sig.key in contexts && PointsOf(raw, sig) != [])
  }

  lemma PointsOfAppend(raw: seq<RawSerie>, r: RawSerie, sig: Signature)
    ensures PointsOf(raw + [r], sig) == PointsOf(raw, sig) + if r.signature == sig then [r.point] else []
  {
    assert (raw + [r])[..|raw|] == raw;
  }

  lemma PointsOfAppendAll(raw: seq<RawSerie>, r: RawSerie)
    ensures forall sig :: PointsOf(raw + [r], sig) == PointsOf(raw, sig) + if r.signature == sig then [r.point] else []
  {
    forall sig {
      PointsOfAppend(raw, r, sig);
    }
  }

  lemma PointAdded(index: map<Signature, nat>, series: seq<Serie>, raw: seq<RawSerie>, r: RawSerie,
                   contexts: map<ContextKey, Context>, interval: int)
    requires MergedSoFar(index, series, raw, contexts, interval) && r.signature in index
    ensures var at := index[r.signature];
            MergedSoFar(index, series[at := series[at].(points := series[at].points + [r.point])], raw + [r], contexts, interval)
  {
    PointsOfAppendAll(raw, r);
  }

  lemma SerieAdded(index: map<Signature, nat>, series: seq<Serie>, raw: seq<RawSerie>, r: RawSerie,
                   contexts: map<ContextKey, Context>, interval: int)
    requires MergedSoFar(index, series, raw, contexts, interval) && r.signature !in index && r.signature.key in contexts
    ensures MergedSoFar(index[r.signature := |series|],
                        series + [Labelled(contexts[r.signature.key], interval, r.signature, [r.point])],
                        raw + [r], contexts, interval)
  {
    PointsOfAppendAll(raw, r);
  }

  lemma PointSkipped(index: map<Signature, nat>, series: seq<Serie>, raw: seq<RawSerie>, r: RawSerie,
                     contexts: map<ContextKey, Context>, interval: int)
    requires MergedSoFar(index, series, raw, contexts, interval) && r.signature.key !in contexts
    ensures MergedSoFar(index, series, raw + [r], contexts, interval)
  {
    PointsOfAppendAll(raw, r);
  }

  // ----- what the series say -----

  /** A raw serie says what the metric of its bucket and context gave: type, suffix, value, and a time of its own or the bucket's. */
  ghost predicate Says(r: RawSerie, b: int, k: ContextKey, m: MetricPoint) {
    && r.signature.apiType == m.apiType && r.signature.key == k && r.signature.suffix == m.suffix
    && r.point.value == m.value && r.point.ts == if m.ts.Some? then m.ts.value else b as real
  }

  /** The raw series of a bucket and a context are what their metric gave, in order. */
  lemma RawSays(raw: seq<RawSerie>, flushed: map<int, ContextMetrics>, seriesOf: seq<MetricSample> -> seq<MetricPoint>, b: int, k: ContextKey)
    requires RawOf(raw, flushed, seriesOf)
    ensures var given := if b in flushed && k in flushed[b] then seriesOf(flushed[b][k]) else [];
            |RawFor(raw, b, k)| == |given| && forall j :: 0 <= j < |given| ==> Says(RawFor(raw, b, k)[j], b, k, given[j])
  {}

  lemma RawFrom(raw: seq<RawSerie>, flushed: map<int, ContextMetrics>, seriesOf: seq<MetricSample> -> seq<MetricPoint>, r: RawSerie)
    returns (m: MetricPoint)
    requires RawOf(raw, flushed, seriesOf) && r in raw
    ensures r.bucket in flushed && r.signature.key in flushed[r.bucket] && m in seriesOf(flushed[r.bucket][r.signature.key])
    ensures Says(r, r.bucket, r.signature.key, m)
  {
    RawForKeeps(raw, r);
    RawSays(raw, flushed, seriesOf, r.bucket, r.signature.key);
    var rs := RawFor(raw, r.bucket, r.signature.key);
    var j :| 0 <= j < |rs| && rs[j] == r;
    m := seriesOf(flushed[r.bucket][r.signature.key])[j];
  }

  lemma {:induction false} PointIsRaw(raw: seq<RawSerie>, sig: Signature, at: Point) returns (r: RawSerie)
    requires at in PointsOf(raw, sig)
    ensures r in raw && r.signature == sig && r.point == at
  {
    var front, last := raw[..|raw| - 1], raw[|raw| - 1];
    if last.signature == sig && last.point == at {
      r := last;
    } else {
      r := PointIsRaw(front, sig, at);
    }
  }

  /** The point is what the metric of some flushed bucket gave for the context, under this API type and suffix. */
  ghost predicate Given(flushed: map<int, ContextMetrics>, seriesOf: seq<MetricSample> -> seq<MetricPoint>,
                        apiType: string, k: ContextKey, suffix: string, at: Point)
  {
    exists b, m :: GivenBy(flushed, seriesOf, apiType, k, suffix, at, b, m)
  }

  ghost predicate GivenBy(flushed: map<int, ContextMetrics>, seriesOf: seq<MetricSample> -> seq<MetricPoint>,
                          apiType: string, k: ContextKey, suffix: string, at: Point, b: int, m: MetricPoint)
  {
    && b in flushed && k in flushed[b] && m in seriesOf(flushed[b][k]) && m.apiType == apiType && m.suffix == suffix
    && at.value == m.value && at.ts == if m.ts.Some? then m.ts.value else b as real
  }

  /**
   Every serie of a flush bears the name of its context with the suffix, its tags and its host, and its points are exactly
   what the metrics of that context gave under its API type and suffix.
   */
  lemma SerieSays(series: seq<Serie>, raw: seq<RawSerie>, flushed: map<int, ContextMetrics>, contexts: map<ContextKey, Context>,
                  interval: int, seriesOf: seq<MetricSample> -> seq<MetricPoint>, i: nat)
    requires RawOf(raw, flushed, seriesOf) && Merged(series, raw, contexts, interval) && i < |series|
    ensures var s, k := series[i], series[i].signature.key;
            && k in contexts && s.name == contexts[k].name + s.signature.suffix && s.tags == contexts[k].tags
            && s.host == contexts[k].host && s.interval == interval
            && forall at :: at in s.points <==> Given(flushed, seriesOf, s.signature.apiType, k, s.signature.suffix, at)
  {
    var s, sig := series[i], series[i].signature;
    assert IsLabelled(s, raw, contexts, interval);
    forall at | at in s.points
      ensures Given(flushed, seriesOf, sig.apiType, sig.key, sig.suffix, at)
    {
      var r := PointIsRaw(raw, sig, at);
      var m := RawFrom(raw, flushed, seriesOf, r);
      assert GivenBy(flushed, seriesOf, sig.apiType, sig.key, sig.suffix, at, r.bucket, m);
    }
    forall at | Given(flushed, seriesOf, sig.apiType, sig.key, sig.suffix, at)
      ensures at in s.points
    {
      var b, m :| GivenBy(flushed, seriesOf, sig.apiType, sig.key, sig.suffix, at, b, m);
      var r := GivenIsRaw(raw, flushed, seriesOf, b, sig.key, m);
      PointsOfKeeps(raw, r);
    }
  }

  lemma GivenIsRaw(raw: seq<RawSerie>, flushed: map<int, ContextMetrics>, seriesOf: seq<MetricSample> -> seq<MetricPoint>,
                   b: int, k: ContextKey, m: MetricPoint) returns (r: RawSerie)
    requires RawOf(raw, flushed, seriesOf) && b in flushed && k in flushed[b] && m in seriesOf(flushed[b][k])
    ensures r in raw && r.signature == Signature(m.apiType, k, m.suffix)
    ensures r.point == Point(if m.ts.Some? then m.ts.value else b as real, m.value)
  {
    RawSays(raw, flushed, seriesOf, b, k);
    var given := seriesOf(flushed[b][k]);
    var j :| 0 <= j < |given| && given[j] == m;
    r := RawFor(raw, b, k)[j];
    RawForIn(raw, b, k, r);
  }

  lemma {:induction false} RawForIn(raw: seq<RawSerie>, b: int, k: ContextKey, r: RawSerie)
    requires r in RawFor(raw, b, k)
    ensures r in raw && r.bucket == b && r.signature.key == k
  {
    if !(raw[0].bucket == b && raw[0].signature.key == k && raw[0] == r) {
      RawForIn(raw[1..], b, k, r);
    }
  }

  /** No point that a metric of a tracked context gave is missing from the series. */
  lemma SerieOf(series: seq<Serie>, raw: seq<RawSerie>, flushed: map<int, ContextMetrics>, contexts: map<ContextKey, Context>,
                interval: int, seriesOf: seq<MetricSample> -> seq<MetricPoint>, b: int, k: ContextKey, m: MetricPoint)
    requires RawOf(raw, flushed, seriesOf) && Merged(series, raw, contexts, interval)
    requires b in flushed && k in flushed[b] && m in seriesOf(flushed[b][k]) && k in contexts
    ensures exists i :: 0 <= i < |series| && series[i].signature.apiType == m.apiType && series[i].signature.key == k &&
                        series[i].signature.suffix == m.suffix
  {
    var r := GivenIsRaw(raw, flushed, seriesOf, b, k, m);
    PointsOfKeeps(raw, r);
  }

  /** A sketch series bears the name, tags and host of its context, and holds its non-empty sketches. */
  lemma SketchSeriesSays(out: seq<SketchSeries>, points: seq<SketchPoint>, contexts: map<ContextKey, Context>, interval: int, i: nat)
    requires SketchesMerged(out, points, contexts, interval) && i < |out|
    ensures var s := out[i];
            && s.key in contexts && s.name == contexts[s.key].name && s.tags == contexts[s.key].tags && s.host == contexts[s.key].host
            && s.interval == interval && forall p :: p in s.points <==> p in points && p.key == s.key && p.sketch != []
  {
    SketchPointsAre(points, out[i].key);
  }

  lemma {:induction false} SketchPointsAre(points: seq<SketchPoint>, k: ContextKey)
    ensures forall p :: p in SketchPointsOf(points, k) <==> p in points && p.key == k && p.sketch != []
  {
    if points != [] {
      SketchPointsAre(points[..|points| - 1], k);
      assert points == points[..|points| - 1] + [points[|points| - 1]];
    }
  }

  // ----- merging sketch points -----

  function SketchPointsOf(points: seq<SketchPoint>, k: ContextKey): seq<SketchPoint> {
    if points == [] then []
    else
      var last := points[|points| - 1];
      SketchPointsOf(points[..|points| - 1], k) + if last.key == k && last.sketch != [] then [last] else []
  }

  ghost predicate IsGrouping(byCtx: map<ContextKey, seq<SketchPoint>>, points: seq<SketchPoint>) {
    && (forall k :: k in byCtx <==> SketchPointsOf(points, k) != [])
    && (forall k :: k in byCtx ==> byCtx[k] == SketchPointsOf(points, k))
  }

  lemma {:induction false} SketchPointsOfGiven(points: seq<SketchPoint>, k: ContextKey)
    requires SketchPointsOf(points, k) != []
    ensures exists p :: p in points && p.key == k
  {
    var last := points[|points| - 1];
    if !(last.key == k && last.sketch != []) {
      SketchPointsOfGiven(points[..|points| - 1], k);
      var p :| p in points[..|points| - 1] && p.key == k;
      assert p in points;
    }
  }

  /** `flushSketches` up to the labelling: the non-empty points of each context, grouped. */
  method GroupPoints(points: seq<SketchPoint>) returns (byCtx: map<ContextKey, seq<SketchPoint>>)
    ensures IsGrouping(byCtx, points)
  {
    byCtx := map[];
    for n := 0 to |points|
      invariant IsGrouping(byCtx, points[..n])
    {
      var p := points[n];
      assert points[..n + 1][..n] == points[..n];
      if p.sketch != [] {
        byCtx := byCtx[p.key := (if p.key in byCtx then byCtx[p.key] else []) + [p]];
      }
    }
    assert points[..|points|] == points;
  }

  ghost predicate SketchesMerged(out: seq<SketchSeries>, points: seq<SketchPoint>, contexts: map<ContextKey, Context>, interval: int) {
    && (forall i, j :: 0 <= i < j < |out| ==> out[i].key != out[j].key)
    && (forall i :: 0 <= i < |out| ==>
          var k := out[i].key;
          k in contexts && SketchPointsOf(points, k) != [] &&
          out[i] == LabelledSketch(contexts[k], interval, k, SketchPointsOf(points, k)))
    && (forall k: ContextKey :: SketchPointsOf(points, k) != [] ==> k in KeysOf(out))
  }

  /** Labels each group with its context; fails where the source would read a missing context. */
  method LabelSketches(byCtx: map<ContextKey, seq<SketchPoint>>, contexts: map<ContextKey, Context>, interval: int,
                       ghost points: seq<SketchPoint>)
    returns (r: Result<seq<SketchSeries>>)
    requires IsGrouping(byCtx, points)
    ensures r.Ok? <==> byCtx.Keys <= contexts.Keys
    ensures r.Ok? ==> SketchesMerged(r.value, points, contexts, interval)
  {
    var out: seq<SketchSeries> := [];
    var todo := byCtx.Keys;
    while todo != {}
      invariant todo <= byCtx.Keys && byCtx.Keys - todo <= contexts.Keys
      invariant LabelledSoFar(out, byCtx, contexts, interval)
      invariant KeysOf(out) == byCtx.Keys - todo
      decreases |todo|
    {
      var k := Pick(todo);
      if k !in contexts {
        return Err;
      }
      LabelledMore(out, byCtx, contexts, interval, k);
      out := out + [LabelledSketch(contexts[k], interval, k, byCtx[k])];
      todo := todo - {k};
    }
    LabelledAll(out, points, byCtx, contexts, interval);
    return Ok(out);
  }

  function LabelledSketch(c: Context, interval: int, k: ContextKey, points: seq<SketchPoint>): SketchSeries {
    SketchSeries(c.name, c.tags, c.host, interval, k, points)
  }

  ghost predicate LabelledSoFar(out: seq<SketchSeries>, byCtx: map<ContextKey, seq<SketchPoint>>,
                                contexts: map<ContextKey, Context>, interval: int)
  {
    && |out| == |KeysOf(out)|
    && forall i :: 0 <= i < |out| ==>
         var k := out[i].key;
         k in byCtx && k in contexts && out[i] == LabelledSketch(contexts[k], interval, k, byCtx[k])
  }

  lemma LabelledMore(out: seq<SketchSeries>, byCtx: map<ContextKey, seq<SketchPoint>>,
                     contexts: map<ContextKey, Context>, interval: int, k: ContextKey)
    requires LabelledSoFar(out, byCtx, contexts, interval) && k in byCtx && k in contexts && k !in KeysOf(out)
    ensures var out' := out + [LabelledSketch(contexts[k], interval, k, byCtx[k])];
            LabelledSoFar(out', byCtx, contexts, interval) && KeysOf(out') == KeysOf(out) + {k}
  {
    KeysOfAppend(out, LabelledSketch(contexts[k], interval, k, byCtx[k]));
  }

  lemma LabelledAll(out: seq<SketchSeries>, points: seq<SketchPoint>, byCtx: map<ContextKey, seq<SketchPoint>>,
                    contexts: map<ContextKey, Context>, interval: int)
    requires LabelledSoFar(out, byCtx, contexts, interval) && KeysOf(out) == byCtx.Keys && IsGrouping(byCtx, points)
    ensures SketchesMerged(out, points, contexts, interval)
  {
    DistinctKeys(out);
  }

  ghost function KeysOf(out: seq<SketchSeries>): set<ContextKey> {
    set i | 0 <= i < |out| :: out[i].key
  }

  lemma KeysOfAppend(out: seq<SketchSeries>, s: SketchSeries)
    ensures KeysOf(out + [s]) == KeysOf(out) + {s.key}
  {
    assert forall i :: 0 <= i < |out| ==> (out + [s])[i] == out[i];
    assert (out + [s])[|out|] == s;
  }

  lemma {:induction false} DistinctKeys(out: seq<SketchSeries>)
    ensures |KeysOf(out)| <= |out|
    ensures |KeysOf(out)| == |out| ==> forall i, j :: 0 <= i < j < |out| ==> out[i].key != out[j].key
  {
    if out != [] {
      var front, last := out[..|out| - 1], out[|out| - 1];
      DistinctKeys(front);
      KeysOfAppend(front, last);
      assert front + [last] == out;
      if last.key in KeysOf(front) {
        assert KeysOf(out) == KeysOf(front);
      }
    }
  }
}
