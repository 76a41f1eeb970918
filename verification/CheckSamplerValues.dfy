/**
 What a check sampler makes of the histogram buckets of a run, said about the buckets themselves: the value each is
 compared with, and the values and bounds it inserts. Main results: LastValueIs, BucketInserts.
 */
module CheckSamplerValues {
  import opened Metrics
  import opened ContextResolver
  import opened SketchMap
  import opened CheckSamplerRuns
  import SV = SamplerValues

  /** Below in the order of the floats; nothing is below or above a NaN. */
  predicate Below(a: Float, b: Float) {
    || (a.NegInf? && (b.Finite? || b.PosInf?))
    || (b.PosInf? && (a.Finite? || a.NegInf?))
    || (a.Finite? && b.Finite? && a.r < b.r)
  }

  /** A bucket of this context with a positive value and bounds that are not the wrong way round. */
  predicate Usable(hash: Context -> ContextKey, op: Op, k: ContextKey) {
    op.AddBucket? && op.b.value > 0 && !Below(op.b.upper, op.b.lower) && hash(Context(op.b.name, op.b.tags, op.b.host)) == k
  }

  /** The last monotonic bucket of a context, not forgotten: no flush came more than 60 seconds after it. */
  ghost predicate IsLast(hash: Context -> ContextKey, ops: seq<Op>, k: ContextKey, i: int) {
    && 0 <= i < |ops| && Usable(hash, ops[i], k) && ops[i].b.monotonic
    && forall j :: i < j < |ops| ==>
         && !(Usable(hash, ops[j], k) && ops[j].b.monotonic)
         && (ops[j].Flush? ==> ops[j].now - ops[i].now <= 60.0)
  }

  lemma UsableIff(hash: Context -> ContextKey, op: Op, k: ContextKey)
    ensures Usable(hash, op, k) <==> CountsFor(hash, op, k)
  {}

  lemma ValueStep(hash: Context -> ContextKey, s: State, op: Op, k: ContextKey)
    requires s.lastBucketValue.Keys == s.lastSeenBucket.Keys
    ensures var s' := Step(hash, s, op);
            if Usable(hash, op, k) && op.b.monotonic then
              k in s'.lastBucketValue && k in s'.lastSeenBucket && s'.lastBucketValue[k] == op.b.value && s'.lastSeenBucket[k] == op.now
            else
              && (k in s'.lastBucketValue <==> (k in s.lastBucketValue && (op.Flush? ==> op.now - s.lastSeenBucket[k] <= 60.0)))
              && (k in s'.lastBucketValue ==>
                    k in s'.lastSeenBucket && s'.lastBucketValue[k] == s.lastBucketValue[k] && s'.lastSeenBucket[k] == s.lastSeenBucket[k])
  {
    UsableIff(hash, op, k);
  }

  predicate Replaces(hash: Context -> ContextKey, op: Op, k: ContextKey) {
    Usable(hash, op, k) && op.b.monotonic
  }

  lemma IsLastMore(hash: Context -> ContextKey, ops: seq<Op>, k: ContextKey, i: int)
    requires ops != []
    ensures var op := ops[|ops| - 1];
            IsLast(hash, ops, k, i) <==>
              ((i == |ops| - 1 && Replaces(hash, op, k)) ||
               (0 <= i < |ops| - 1 && IsLast(hash, Prefix(ops), k, i) && !Replaces(hash, op, k) && (op.Flush? ==> op.now - ops[i].now <= 60.0)))
  {
    assert forall j :: 0 <= j < |ops| - 1 ==> Prefix(ops)[j] == ops[j];
  }

  lemma LastOnce(hash: Context -> ContextKey, ops: seq<Op>, k: ContextKey, i: int, j: int)
    requires IsLast(hash, ops, k, i) && IsLast(hash, ops, k, j)
    ensures i == j
  {}

  /** Over every run the sampler remembers the raw value and the time of exactly that bucket. */
  lemma {:induction false} LastValueIs(hash: Context -> ContextKey, ops: seq<Op>, k: ContextKey)
    ensures k in Run(hash, ops).lastBucketValue <==> exists i :: IsLast(hash, ops, k, i)
    ensures forall i :: IsLast(hash, ops, k, i) ==>
              && k in Run(hash, ops).lastBucketValue && k in Run(hash, ops).lastSeenBucket
              && Run(hash, ops).lastBucketValue[k] == ops[i].b.value && Run(hash, ops).lastSeenBucket[k] == ops[i].now
  {
    if ops != [] {
      var before, op, n := Prefix(ops), ops[|ops| - 1], |ops| - 1;
      LastValueIs(hash, before, k);
      SameKeys(hash, before);
      ValueStep(hash, Run(hash, before), op, k);
      if Replaces(hash, op, k) {
        IsLastMore(hash, ops, k, n);
        forall i | IsLast(hash, ops, k, i)
          ensures i == n
        {
          LastOnce(hash, ops, k, i, n);
        }
      } else if i :| IsLast(hash, before, k, i) {
        IsLastMore(hash, ops, k, i);
        forall j | IsLast(hash, ops, k, j)
          ensures j == i
        {
          IsLastMore(hash, ops, k, j);
          LastOnce(hash, before, k, i, j);
        }
      } else {
        forall j | IsLast(hash, ops, k, j)
          ensures false
        {
          IsLastMore(hash, ops, k, j);
          assert false;
        }
      }
    }
  }

  /** How many values a usable bucket stands for, after these operations. */
  ghost predicate CountOf(hash: Context -> ContextKey, ops: seq<Op>, b: HistogramBucket, k: ContextKey, count: int) {
    if b.monotonic && exists i :: IsLast(hash, ops, k, i)
    then exists i :: IsLast(hash, ops, k, i) && count == b.value - ops[i].b.value
    else count == b.value
  }

  /** The upper bound it is inserted with: for the highest bucket, which has none, the lower one again. */
  predicate Bounds(b: HistogramBucket, lower: real, upper: real) {
    b.lower == Finite(lower) && (b.upper == Finite(upper) || (b.upper == PosInf && upper == lower))
  }

  /**
   After any run a bucket inserts, into the sketch of its second and its context and into no other, as many values between
   its bounds as it stands for; nothing, if it is not usable, stands for none, or has no finite bounds.
   */
  lemma BucketInserts(hash: Context -> ContextKey, ops: seq<Op>, b: HistogramBucket, now: real, k: ContextKey, second: int, count: int, ts: int)
    requires k == hash(Context(b.name, b.tags, b.host)) && SV.InBucket(b.timestamp, second, 1)
    requires CountOf(hash, ops, b, k, count)
    ensures var before, after := Run(hash, ops).sketches, Run(hash, ops + [AddBucket(b, now)]).sketches;
            && (forall j :: j != k || ts != second ==> At(after, ts, j) == At(before, ts, j))
            && (forall l, u :: Bounds(b, l, u) && Usable(hash, AddBucket(b, now), k) && count > 0 ==>
                  At(after, second, k) == At(before, second, k) + [Interpolated(l, u, count)])
            && ((forall l, u :: !Bounds(b, l, u)) || !Usable(hash, AddBucket(b, now), k) || count <= 0 ==> after == before)
  {
    var all := ops + [AddBucket(b, now)];
    assert Prefix(all) == ops;
    UsableIff(hash, AddBucket(b, now), k);
    LastValueIs(hash, ops, k);
    SV.BucketStartIff(b.timestamp, second, 1);
    SecondIs(b.timestamp);
    if b.lower.Finite? && (b.upper.Finite? || b.upper.PosInf?) {
      assert Bounds(b, b.lower.r, if b.upper.Finite? then b.upper.r else b.lower.r);
    }
  }

  lemma SecondIs(t: real)
    ensures SamplerState.BucketStart(t, 1) == SamplerState.Truncate(t)
  {}

  /** A commit takes the sketches of the seconds before its own and forgets the contexts last seen more than 300 seconds before. */
  lemma CommitTakes(s: State, t: real, second: int)
    requires SV.InBucket(t, second, 1)
    ensures var s' := Committed(s, t);
            && (forall ts, k :: Holds(s'.sketches, ts, k) <==> Holds(s.sketches, ts, k) && second <= ts)
            && (forall ts, k :: Holds(s'.sketches, ts, k) ==> At(s'.sketches, ts, k) == At(s.sketches, ts, k))
            && (forall k :: k in s'.tracked.contexts <==> k in s.tracked.contexts && !(k in s.tracked.lastSeen && s.tracked.lastSeen[k] < t - 300.0))
            && (forall k :: k in s'.tracked.contexts ==> s'.tracked.contexts[k] == s.tracked.contexts[k])
  {
    SV.BucketStartIff(t, second, 1);
    SecondIs(t);
  }
}
