/**
 What the time sampler emits, said about the samples that came in: which buckets a flush emits, and in each of them
 every sample as it was given, then a zero for each counter still alive. Main results: SamplesUnaltered, FlushedBuckets,
 CountersAre, FlushedValues, ContextIsFirst.
 */
module SamplerValues {
  import opened Metrics
  import opened ContextResolver
  import opened SketchMap
  import opened Wrappers
  import opened SamplerState
  import opened SamplerRuns

  // ----- buckets -----

  /** The bucket of a time begins at the last multiple of the interval; times before the epoch are rounded towards it. */
  predicate InBucket(t: real, b: int, interval: Interval) {
    && b % interval == 0
    && if t >= 0.0 then b as real <= t < (b + interval) as real else (b - interval) as real < t <= b as real
  }

  lemma BucketIsUnique(t: real, a: int, b: int, interval: Interval)
    requires InBucket(t, a, interval) && InBucket(t, b, interval)
    ensures a == b
  {
    if a < b {
      MultipleApart(a, b, interval);
    } else if b < a {
      MultipleApart(b, a, interval);
    }
  }

  lemma BucketStartIn(t: real, interval: Interval)
    ensures InBucket(t, BucketStart(t, interval), interval)
  {
    RemainderFacts(Truncate(t), interval);
    BucketStartFacts(t, interval);
    if t < 0.0 {
      assert Truncate(t) <= 0 && t <= Truncate(t) as real && (Truncate(t) - 1) as real < t;
    }
  }

  lemma BucketStartIff(t: real, b: int, interval: Interval)
    ensures BucketStart(t, interval) == b <==> InBucket(t, b, interval)
  {
    BucketStartIn(t, interval);
    if InBucket(t, b, interval) {
      BucketIsUnique(t, b, BucketStart(t, interval), interval);
    }
  }

  // ----- the samples of a bucket -----

  predicate HasKey(p: Params, x: MetricSample, k: ContextKey) {
    p.hash(Context(x.name, x.tags, x.host)) == k
  }

  /** The operation brings a finite value for this bucket and context, for a sketch or for another metric. */
  predicate Brings(p: Params, op: Op, b: int, k: ContextKey, sketch: bool) {
    && op.Sample? && op.x.value.Finite? && (sketch <==> op.x.mtype == DistributionType)
    && HasKey(p, op.x, k) && InBucket(op.t, b, p.interval)
  }

  /** The operations that do, in order. */
  function Given(p: Params, ops: seq<Op>, b: int, k: ContextKey, sketch: bool): (given: seq<Op>)
    ensures forall i :: 0 <= i < |given| ==> given[i].Sample? && given[i].x.value.Finite?
  {
    if ops == [] then []
    else Given(p, Prefix(ops), b, k, sketch) + if Brings(p, ops[|ops| - 1], b, k, sketch) then [ops[|ops| - 1]] else []
  }

  /** What a metric is given is the sample itself, at the time it came. */
  ghost predicate AsGiven(x: MetricSample, op: Op) {
    && op.Sample? && x.value == op.x.value && x.rawValue == op.x.rawValue && x.mtype == op.x.mtype && x.sampleRate == op.x.sampleRate
    && x.name == op.x.name && x.tags == op.x.tags && x.host == op.x.host && x.timestamp == op.t
  }

  ghost predicate AllAsGiven(xs: seq<MetricSample>, given: seq<Op>) {
    |xs| == |given| && forall i :: 0 <= i < |xs| ==> AsGiven(xs[i], given[i])
  }

  lemma {:induction false} AcceptedAsGiven(p: Params, ops: seq<Op>, b: int, k: ContextKey)
    ensures AllAsGiven(AcceptedMetrics(p, ops, b, k), Given(p, ops, b, k, false))
    ensures var given := Given(p, ops, b, k, true);
            AcceptedSketch(p, ops, b, k) == seq(|given|, i requires 0 <= i < |given| => Value(given[i].x.value.r, given[i].x.sampleRate))
  {
    if ops != [] {
      AcceptedAsGiven(p, Prefix(ops), b, k);
      BucketStartIff(ops[|ops| - 1].t, b, p.interval);
    }
  }

  /**
   Over every run, what was emitted for a bucket and a context and what is still pending are, in order, the samples that
   came for them, with their values, raw values, types and rates; a sketch receives their values and rates.
   */
  lemma SamplesUnaltered(p: Params, ops: seq<Op>, b: int, k: ContextKey)
    ensures AllAsGiven(TakenMetrics(p, ops, b, k) + PendingMetrics(Run(p, ops), b, k), Given(p, ops, b, k, false))
    ensures var given := Given(p, ops, b, k, true);
            var sketched := TakenSketch(p, ops, b, k) + At(Run(p, ops).sketches, b, k);
            && |sketched| == |given|
            && forall i :: 0 <= i < |given| ==> sketched[i] == Value(given[i].x.value.r, given[i].x.sampleRate)
  {
    Conservation(p, ops, b, k);
    AcceptedAsGiven(p, ops, b, k);
  }

  // ----- the buckets of a flush -----

  /** A sample that is not for a sketch opened the bucket, and no flush has come since whose own bucket begins after its end. */
  ghost predicate Open(p: Params, ops: seq<Op>, b: int) {
    exists i :: Opens(p, ops, b, i)
  }

  ghost predicate Opens(p: Params, ops: seq<Op>, b: int, i: int) {
    && 0 <= i < |ops| && ops[i].Sample? && ops[i].x.mtype != DistributionType && InBucket(ops[i].t, b, p.interval)
    && forall j, c :: i < j < |ops| && ops[j].Flush? && InBucket(ops[j].t, c, p.interval) ==> c < b + p.interval
  }

  lemma OpensMore(p: Params, ops: seq<Op>, b: int, i: int)
    requires ops != [] && i < |ops| - 1
    ensures var op, cutoff := ops[|ops| - 1], BucketStart(ops[|ops| - 1].t, p.interval);
            Opens(p, ops, b, i) <==> Opens(p, Prefix(ops), b, i) && (op.Flush? ==> cutoff < b + p.interval)
  {
    var op := ops[|ops| - 1];
    BucketStartIn(op.t, p.interval);
    forall c | InBucket(op.t, c, p.interval)
      ensures c == BucketStart(op.t, p.interval)
    {
      BucketIsUnique(op.t, c, BucketStart(op.t, p.interval), p.interval);
    }
  }

  lemma OpenMore(p: Params, ops: seq<Op>, b: int)
    requires ops != []
    ensures var op, start := ops[|ops| - 1], BucketStart(ops[|ops| - 1].t, p.interval);
            Open(p, ops, b) <==>
              if op.Flush? then Open(p, Prefix(ops), b) && start < b + p.interval
              else Open(p, Prefix(ops), b) || (op.x.mtype != DistributionType && start == b)
  {
    var op, last := ops[|ops| - 1], |ops| - 1;
    BucketStartIff(op.t, b, p.interval);
    forall i | 0 <= i < last
      ensures Opens(p, ops, b, i) <==> Opens(p, Prefix(ops), b, i) && (op.Flush? ==> BucketStart(op.t, p.interval) < b + p.interval)
    {
      OpensMore(p, ops, b, i);
    }
    assert Opens(p, ops, b, last) <==> op.Sample? && op.x.mtype != DistributionType && InBucket(op.t, b, p.interval);
  }

  lemma PendingStep(p: Params, s: State, op: Op, b: int)
    ensures b in Step(p, s, op).metrics <==>
              if op.Flush? then b in s.metrics && BucketStart(op.t, p.interval) < b + p.interval
              else b in s.metrics || (op.x.mtype != DistributionType && BucketStart(op.t, p.interval) == b)
  {}

  lemma {:induction false} OpenIsPending(p: Params, ops: seq<Op>, b: int)
    ensures b in Run(p, ops).metrics <==> Open(p, ops, b)
  {
    if ops != [] {
      OpenIsPending(p, Prefix(ops), b);
      PendingStep(p, Run(p, Prefix(ops)), ops[|ops| - 1], b);
      OpenMore(p, ops, b);
    }
  }

  /** The bucket of the last flush, or the epoch. */
  ghost predicate LastCut(p: Params, ops: seq<Op>, c: int) {
    if LastFlush(ops).Some? then InBucket(LastFlush(ops).value, c, p.interval) else c == 0
  }

  lemma {:induction false} LastCutIs(p: Params, ops: seq<Op>)
    ensures LastCut(p, ops, Run(p, ops).lastCutOff)
  {
    if ops != [] {
      LastCutIs(p, Prefix(ops));
      BucketStartIn(ops[|ops| - 1].t, p.interval);
    }
  }

  /** What the flush at time t, after this run, emits: by bucket and context. */
  function FlushedAfter(p: Params, s: State, t: real): map<int, ContextMetrics> {
    FlushedMetrics(p, s, BucketStart(t, p.interval))
  }

  /**
   A flush emits the open buckets that end no later than its own begins. When no bucket is open it emits the one before
   its own, if a whole interval has passed since the bucket of the flush before.
   */
  lemma FlushedBuckets(p: Params, ops: seq<Op>, t: real, b: int, c: int, last: int)
    requires InBucket(t, c, p.interval) && LastCut(p, ops, last)
    ensures b in FlushedAfter(p, Run(p, ops), t) <==>
              if exists a :: Open(p, ops, a) then Open(p, ops, b) && b + p.interval <= c
              else last + p.interval <= c && b == c - p.interval
  {
    var s := Run(p, ops);
    BucketStartIff(t, c, p.interval);
    LastCutIs(p, ops);
    if LastFlush(ops).Some? {
      BucketIsUnique(LastFlush(ops).value, last, s.lastCutOff, p.interval);
    }
    OpenIsPending(p, ops, b);
    if a :| Open(p, ops, a) {
      OpenIsPending(p, ops, a);
    } else if s.metrics != map[] {
      var a :| a in s.metrics;
      OpenIsPending(p, ops, a);
    }
  }

  // ----- the counters -----

  /** A counter last sampled at `last` is alive in every bucket that the flush emits. */
  ghost predicate Spares(p: Params, s: State, t: real, last: real) {
    forall b :: b in FlushedAfter(p, s, t) ==> p.expiry + last > b as real
  }

  ghost predicate SparesAt(p: Params, ops: seq<Op>, j: int, last: real)
    requires 0 <= j < |ops|
  {
    ops[j].Flush? ==> Spares(p, Run(p, ops[..j]), ops[j].t, last)
  }

  predicate CounterOf(p: Params, op: Op, k: ContextKey) {
    op.Sample? && op.x.mtype == CounterType && HasKey(p, op.x, k)
  }

  /** The last sample of a counter, alive in every bucket that was emitted since. */
  ghost predicate Counts(p: Params, ops: seq<Op>, k: ContextKey, i: int) {
    && 0 <= i < |ops| && CounterOf(p, ops[i], k)
    && forall j :: i < j < |ops| ==> !CounterOf(p, ops[j], k) && SparesAt(p, ops, j, ops[i].t)
  }

  lemma CountsMore(p: Params, ops: seq<Op>, k: ContextKey, i: int)
    requires ops != [] && i < |ops| - 1
    ensures var op := ops[|ops| - 1];
            Counts(p, ops, k, i) <==>
              (Counts(p, Prefix(ops), k, i) && !CounterOf(p, op, k) && (op.Flush? ==> Spares(p, Run(p, Prefix(ops)), op.t, ops[i].t)))
  {
    var before, n := Prefix(ops), |ops| - 1;
    if 0 <= i {
      forall j | i < j < n
        ensures SparesAt(p, ops, j, ops[i].t) <==> SparesAt(p, before, j, before[i].t)
      {
        assert before[..j] == ops[..j] && before[j] == ops[j];
      }
      assert ops[..n] == before;
      assert SparesAt(p, ops, n, ops[i].t) <==> (ops[n].Flush? ==> Spares(p, Run(p, before), ops[n].t, ops[i].t));
    }
  }

  lemma CountersStep(p: Params, s: State, op: Op, k: ContextKey)
    ensures var s' := Step(p, s, op);
            if CounterOf(p, op, k) then k in s'.counters && s'.counters[k] == op.t
            else
              && (k in s'.counters <==> (k in s.counters && (op.Flush? ==> Spares(p, s, op.t, s.counters[k]))))
              && (k in s'.counters ==> s'.counters[k] == s.counters[k])
  {
    if op.Flush? {
      var closing := Closing(p, s, BucketStart(op.t, p.interval));
      assert FlushedAfter(p, s, op.t).Keys == closing;
    }
  }

  /** Whether the counter last sampled by operation `i` survives this operation. */
  ghost predicate Survives(p: Params, ops: seq<Op>, k: ContextKey, i: int)
    requires ops != [] && 0 <= i < |ops| - 1
  {
    var op := ops[|ops| - 1];
    !CounterOf(p, op, k) && (op.Flush? ==> Spares(p, Run(p, Prefix(ops)), op.t, ops[i].t))
  }

  lemma CountsAre(p: Params, ops: seq<Op>, k: ContextKey, i: int)
    requires ops != []
    ensures Counts(p, ops, k, i) <==>
              ((i == |ops| - 1 && CounterOf(p, ops[i], k)) || (0 <= i < |ops| - 1 && Counts(p, Prefix(ops), k, i) && Survives(p, ops, k, i)))
  {
    if 0 <= i < |ops| - 1 {
      CountsMore(p, ops, k, i);
    }
  }

  /** The sampler remembers the counter that these operations leave alive. */
  ghost predicate RemembersAs(p: Params, ops: seq<Op>, k: ContextKey, i: int) {
    Counts(p, ops, k, i) && k in Run(p, ops).counters && Run(p, ops).counters[k] == ops[i].t
  }

  lemma CountersMore(p: Params, ops: seq<Op>, k: ContextKey, i: int)
    requires ops != [] && RemembersAs(p, Prefix(ops), k, i) && !CounterOf(p, ops[|ops| - 1], k)
    ensures if Survives(p, ops, k, i) then RemembersAs(p, ops, k, i) else k !in Run(p, ops).counters
  {
    CountsAre(p, ops, k, i);
    CountersStep(p, Run(p, Prefix(ops)), ops[|ops| - 1], k);
  }

  lemma CountsOnce(p: Params, ops: seq<Op>, k: ContextKey, i: int, j: int)
    requires Counts(p, ops, k, i) && Counts(p, ops, k, j)
    ensures i == j
  {}

  /** Over every run the sampler remembers exactly the counters still alive, with the time of their last sample. */
  lemma {:induction false} CountersAre(p: Params, ops: seq<Op>, k: ContextKey)
    ensures k in Run(p, ops).counters <==> exists i :: Counts(p, ops, k, i)
    ensures forall i :: Counts(p, ops, k, i) ==> k in Run(p, ops).counters && Run(p, ops).counters[k] == ops[i].t
  {
    if ops != [] {
      var before, op, n := Prefix(ops), ops[|ops| - 1], |ops| - 1;
      CountersAre(p, before, k);
      CountersStep(p, Run(p, before), op, k);
      if CounterOf(p, op, k) {
        CountsAre(p, ops, k, n);
        forall i | Counts(p, ops, k, i)
          ensures i == n
        {
          CountsOnce(p, ops, k, i, n);
        }
      } else if i :| Counts(p, before, k, i) {
        CountersMore(p, ops, k, i);
        forall j | Counts(p, ops, k, j)
          ensures j == i && Survives(p, ops, k, i)
        {
          CountsAre(p, ops, k, j);
          CountsOnce(p, before, k, i, j);
        }
      } else {
        forall j | Counts(p, ops, k, j)
          ensures false
        {
          CountsAre(p, ops, k, j);
          assert false;
        }
      }
    }
  }

  // ----- the values of a flush -----

  ghost predicate IsZeroAt(x: MetricSample, b: int) {
    && x.value == Finite(0.0) && x.rawValue == "0.0" && x.mtype == CounterType && x.sampleRate == Finite(1.0)
    && x.name == "" && x.tags == [] && x.host == "" && x.timestamp == b as real
  }

  /** A counter that is alive in the bucket gets a zero there. */
  ghost predicate Alive(p: Params, ops: seq<Op>, k: ContextKey, b: int) {
    exists i :: Counts(p, ops, k, i) && p.expiry + ops[i].t > b as real
  }

  lemma AliveIsTarget(p: Params, ops: seq<Op>, k: ContextKey, b: int)
    ensures Alive(p, ops, k, b) <==> k in ZeroTargets(p, Run(p, ops), b)
  {
    CountersAre(p, ops, k);
  }

  lemma FlushedAt(p: Params, s: State, t: real, b: int, k: ContextKey)
    requires b in FlushedAfter(p, s, t)
    ensures SamplesOf(FlushedAfter(p, s, t)[b], k) == PendingMetrics(s, b, k) + if k in ZeroTargets(p, s, b) then [ZeroSample(b)] else []
  {}

  /**
   Flush `i` of an ordered run emits for a bucket and a context all samples that the whole run ever brings for them, as
   they were given, and then a zero exactly for a counter that is alive in the bucket.
   */
  lemma FlushedValues(p: Params, ops: seq<Op>, i: nat, b: int, k: ContextKey)
    requires Ordered(p, ops) && FlushAt(ops, i) && b in FlushedAfter(p, Run(p, ops[..i]), ops[i].t)
    ensures var xs, n := SamplesOf(FlushedAfter(p, Run(p, ops[..i]), ops[i].t)[b], k), |Given(p, ops, b, k, false)|;
            && n <= |xs| && AllAsGiven(xs[..n], Given(p, ops, b, k, false))
            && if Alive(p, ops[..i], k, b) then |xs| == n + 1 && IsZeroAt(xs[n], b) else |xs| == n
  {
    CompleteBuckets(p, ops, i, b, k);
    AcceptedAsGiven(p, ops, b, k);
    AliveIsTarget(p, ops[..i], k, b);
    var xs, accepted := SamplesOf(FlushedAfter(p, Run(p, ops[..i]), ops[i].t)[b], k), AcceptedMetrics(p, ops, b, k);
    assert xs[..|accepted|] == accepted;
  }

  ghost predicate NoneEmpty(s: State) {
    forall b, k :: b in s.metrics && k in s.metrics[b] ==> s.metrics[b][k] != []
  }

  lemma NoneEmptyStep(p: Params, s: State, op: Op)
    requires NoneEmpty(s)
    ensures NoneEmpty(Step(p, s, op))
  {
    if op.Sample? {
      var k, b := p.hash(ContextOf(op.x)), BucketStart(op.t, p.interval);
      assert forall j :: j in MetricsAt(s, b) ==> MetricsAt(s, b)[j] != [];
    }
  }

  lemma {:induction false} RunNoneEmpty(p: Params, ops: seq<Op>)
    ensures NoneEmpty(Run(p, ops))
  {
    if ops != [] {
      RunNoneEmpty(p, Prefix(ops));
      NoneEmptyStep(p, Run(p, Prefix(ops)), ops[|ops| - 1]);
    }
  }

  /** A flush names a context in a bucket only if it emits something for it there. */
  lemma FlushedKeys(p: Params, ops: seq<Op>, t: real, b: int, k: ContextKey)
    requires b in FlushedAfter(p, Run(p, ops), t)
    ensures k in FlushedAfter(p, Run(p, ops), t)[b] <==> SamplesOf(FlushedAfter(p, Run(p, ops), t)[b], k) != []
  {
    RunNoneEmpty(p, ops);
  }

  // ----- the contexts -----

  /** Sample `i` found the context untracked, and it has been tracked since. */
  ghost predicate First(p: Params, ops: seq<Op>, k: ContextKey, i: int) {
    && 0 <= i < |ops| && ops[i].Sample? && HasKey(p, ops[i].x, k)
    && k !in Run(p, ops[..i]).tracked.contexts
    && forall j :: i < j <= |ops| ==> k in Run(p, ops[..j]).tracked.contexts
  }

  lemma FirstMore(p: Params, ops: seq<Op>, k: ContextKey, i: int)
    requires ops != [] && First(p, Prefix(ops), k, i) && k in Run(p, ops).tracked.contexts
    ensures First(p, ops, k, i)
  {
    assert forall j :: 0 <= j <= |ops| - 1 ==> Prefix(ops)[..j] == ops[..j];
    assert ops[..|ops|] == ops;
  }

  lemma TrackedStep(p: Params, s: State, op: Op, k: ContextKey)
    ensures var s' := Step(p, s, op);
            if op.Sample? && HasKey(p, op.x, k) then
              && k in s'.tracked.contexts && k in s'.tracked.lastSeen && s'.tracked.lastSeen[k] == op.t
              && s'.tracked.contexts[k] == if k in s.tracked.contexts then s.tracked.contexts[k] else Context(op.x.name, op.x.tags, op.x.host)
            else
              && (k in s'.tracked.contexts ==> k in s.tracked.contexts && s'.tracked.contexts[k] == s.tracked.contexts[k])
              && (op.Sample? ==> (k in s'.tracked.contexts <==> k in s.tracked.contexts))
  {}

  /** Over every run a tracked context has the name, tags and host of the sample that it has been tracked from. */
  lemma {:induction false} ContextIsFirst(p: Params, ops: seq<Op>, k: ContextKey) returns (i: int)
    requires k in Run(p, ops).tracked.contexts
    ensures First(p, ops, k, i)
    ensures Run(p, ops).tracked.contexts[k] == Context(ops[i].x.name, ops[i].x.tags, ops[i].x.host)
  {
    var before, n := Prefix(ops), |ops| - 1;
    TrackedStep(p, Run(p, before), ops[n], k);
    if k in Run(p, before).tracked.contexts {
      i := ContextIsFirst(p, before, k);
      FirstMore(p, ops, k, i);
    } else {
      i := n;
      assert ops[..n] == before && ops[..|ops|] == ops;
    }
  }

  /** When a context was last seen, as a flush leaves it: by a sample, or by a zero in one of the buckets it emits. */
  ghost predicate SeenAt(p: Params, s: State, t: real, k: ContextKey, r: real) {
    k in s.tracked.lastSeen &&
    (r == s.tracked.lastSeen[k] ||
     exists b :: b in FlushedAfter(p, s, t) && k in s.counters && p.expiry + s.counters[k] > b as real && r == b as real)
  }

  /** A flush forgets exactly the contexts that were last seen more than 300 seconds before. */
  lemma FlushForgets(p: Params, s: State, t: real, k: ContextKey)
    requires s.tracked.Agree()
    ensures k in Flushed(p, s, t).tracked.contexts <==> exists r :: SeenAt(p, s, t, k, r) && r >= t - 300.0
    ensures k in Flushed(p, s, t).tracked.lastSeen ==>
              SeenAt(p, s, t, k, Flushed(p, s, t).tracked.lastSeen[k]) &&
              forall r :: SeenAt(p, s, t, k, r) ==> r <= Flushed(p, s, t).tracked.lastSeen[k]
  {
    var closing := Closing(p, s, BucketStart(t, p.interval));
    assert FlushedAfter(p, s, t).Keys == closing;
    if k in s.tracked.lastSeen {
      var seen := BumpedTracked(p, s, closing).lastSeen[k];
      assert SeenAt(p, s, t, k, seen);
      assert forall r :: SeenAt(p, s, t, k, r) ==> r <= seen;
    }
  }
}
