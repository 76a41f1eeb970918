/**
 The state of pkg/aggregator/time_sampler.go and the effect of one call on it, as functions.
 Class TimeSampler is proved equal to these; SamplerRuns proves properties of whole runs.
 */
module SamplerState {
  import opened Metrics
  import opened ContextResolver
  import opened SketchMap
  import opened Wrappers

  const DEFAULT_EXPIRY := 300.0
  const BUCKET_SIZE := 10

  type Interval = i: int | i > 0 witness 10

  /** `expiry` is the dogstatsd_expiry_seconds setting. */
  datatype Params = Params(interval: Interval, expiry: real, hash: Context -> ContextKey)

  datatype State = State(
    tracked: Tracked,
    metrics: map<int, ContextMetrics>,
    counters: map<ContextKey, real>,
    lastCutOff: int,
    sketches: Sketches)

  const INITIAL := State(Tracked(map[], map[]), map[], map[], 0, map[])

  // ----- bucket arithmetic -----

  /** Go's conversion of a float64 to an int64 drops the fraction. */
  function Truncate(t: real): int {
    if t >= 0.0 then t.Floor else -((-t).Floor)
  }

  /** Go's % takes the sign of the dividend. */
  function Remainder(a: int, b: Interval): int {
    if a >= 0 then a % b else -((-a) % b)
  }

  function BucketStart(t: real, interval: Interval): int {
    Truncate(t) - Remainder(Truncate(t), interval)
  }

  predicate StillOpen(bucket: int, time: int, interval: Interval) {
    bucket + interval > time
  }

  // ----- addSample -----

  function MetricsAt(s: State, bucket: int): ContextMetrics {
    if bucket in s.metrics then s.metrics[bucket] else map[]
  }

  function AddedSample(p: Params, s: State, x: MetricSample, t: real): State {
    var k := p.hash(ContextOf(x));
    var bucket := BucketStart(t, p.interval);
    var s1 := s.(tracked := s.tracked.Track(k, ContextOf(x), t));
    if x.mtype == DistributionType then
      s1.(sketches := if x.value.Finite? then Inserted(s.sketches, bucket, k, Value(x.value.r, x.sampleRate)) else s.sketches)
    else
      s1.(metrics := s.metrics[bucket := AddSample(MetricsAt(s, bucket), k, Arrived(x, t))],
          counters := if x.mtype == CounterType then s.counters[k := t] else s.counters)
  }

  // ----- flush -----

  /** The buckets a flush visits: the closed ones, or one recreated bucket when no metric is pending at all. */
  function Closing(p: Params, s: State, cutoff: int): set<int> {
    if s.metrics != map[] then set b | b in s.metrics && !StillOpen(b, cutoff, p.interval)
    else if s.lastCutOff + p.interval <= cutoff then {cutoff - p.interval}
    else {}
  }

  function LiveCounters(expiry: real, counters: map<ContextKey, real>, bucket: int): set<ContextKey> {
    set k | k in counters && expiry + counters[k] > bucket as real
  }

  /** The counters that get a zero sample in a bucket. */
  function ZeroTargets(p: Params, s: State, bucket: int): set<ContextKey> {
    LiveCounters(p.expiry, s.counters, bucket)
  }

  /** Adds a zero sample for each key: what `countersSampleZeroValue` does to the bucket. */
  function WithZeros(cm: ContextMetrics, targets: set<ContextKey>, bucket: int): ContextMetrics {
    map k | k in cm.Keys + targets :: SamplesOf(cm, k) + if k in targets then [ZeroSample(bucket)] else []
  }

  function EmittedAt(p: Params, s: State, buckets: set<int>): map<int, ContextMetrics> {
    map b | b in buckets :: WithZeros(MetricsAt(s, b), ZeroTargets(p, s, b), b)
  }

  /** The metrics a flush emits, by bucket and context. */
  function FlushedMetrics(p: Params, s: State, cutoff: int): map<int, ContextMetrics> {
    EmittedAt(p, s, Closing(p, s, cutoff))
  }

  /** The last-seen time of a counter after zero samples in `buckets`: the latest of the buckets before `until`, if later. */
  ghost function Bumped(buckets: set<int>, until: real, seen: real): (r: real)
    ensures seen <= r
    ensures r == seen || exists b :: b in buckets && b as real < until && r == b as real
    ensures forall b :: b in buckets && b as real < until ==> b as real <= r
  {
    if buckets == {} then seen
    else
      var b := AnyOf(buckets);
      var r := Bumped(buckets - {b}, until, seen);
      assert forall c :: c in buckets ==> c == b || c in buckets - {b};
      if b as real < until && r < b as real then b as real else r
  }

  ghost function BumpedTracked(p: Params, s: State, buckets: set<int>): Tracked {
    s.tracked.(lastSeen := map k | k in s.tracked.lastSeen ::
      if k in s.counters then Bumped(buckets, p.expiry + s.counters[k], s.tracked.lastSeen[k]) else s.tracked.lastSeen[k])
  }

  /** The counters that were still live in every flushed bucket. */
  function KeptCounters(p: Params, s: State, buckets: set<int>): map<ContextKey, real> {
    map k | k in s.counters && (forall b :: b in buckets ==> k in ZeroTargets(p, s, b)) :: s.counters[k]
  }

  ghost function Flushed(p: Params, s: State, t: real): State {
    var cutoff := BucketStart(t, p.interval);
    var closing := Closing(p, s, cutoff);
    State(
      BumpedTracked(p, s, closing).Expire(t - DEFAULT_EXPIRY),
      s.metrics - closing,
      KeptCounters(p, s, closing),
      cutoff,
      s.sketches - Before(s.sketches, cutoff))
  }

  /** Otherwise `newSketchSeries` reads the fields of a missing context. */
  ghost predicate SketchesTracked(s: State, cutoff: int) {
    forall ts, k :: Holds(s.sketches, ts, k) && ts < cutoff ==> k in s.tracked.contexts
  }

  /** Otherwise `flushSeries` drops a serie of an untracked context. */
  ghost predicate MetricsTracked(p: Params, s: State, cutoff: int) {
    forall b, k :: b in Closing(p, s, cutoff) && k in MetricsAt(s, b).Keys + ZeroTargets(p, s, b) ==> k in s.tracked.contexts
  }
}
