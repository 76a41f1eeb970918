/**
 pkg/aggregator/check_sampler.go: the histogram-bucket side of a check sampler as a state machine,
 and whole runs of it. Main results: Telescope, LastValueTotalIff, CommitsSafe, SameKeys.
 */
module CheckSamplerRuns {
  import opened Metrics
  import opened ContextResolver
  import opened SketchMap
  import opened Wrappers
  import SamplerState

  const BUCKET_EXPIRY := 60.0

  datatype HistogramBucket = HistogramBucket(
    name: string,
    value: int,
    lower: Float,
    upper: Float,
    monotonic: bool,
    tags: seq<string>,
    host: string,
    timestamp: real)

  datatype State = State(
    tracked: Tracked,
    sketches: Sketches,
    lastBucketValue: map<ContextKey, int>,
    lastSeenBucket: map<ContextKey, real>)

  const INITIAL := State(Tracked(map[], map[]), map[], map[], map[])

  function BucketContext(b: HistogramBucket): Context {
    Context(b.name, b.tags, b.host)
  }

  /** Whether the float64 difference upper - lower is below zero; a NaN is not. */
  predicate NegativeRange(lower: Float, upper: Float) {
    match (lower, upper)
    case (Finite(l), Finite(u)) => u - l < 0.0
    case (Finite(_), NegInf) => true
    case (PosInf, Finite(_)) => true
    case (PosInf, NegInf) => true
    case _ => false
  }

  /** A bucket that is dropped before its context is looked up. */
  predicate Discarded(b: HistogramBucket) {
    b.value <= 0 || NegativeRange(b.lower, b.upper)
  }

  /** The count to insert: the raw value, or the increment of a monotonic bucket already seen. */
  function Delta(s: State, k: ContextKey, b: HistogramBucket): int {
    if b.monotonic && k in s.lastBucketValue then b.value - s.lastBucketValue[k] else b.value
  }

  /** The highest bucket has no upper bound; its lower bound is used twice. */
  function UpperUsed(b: HistogramBucket): Float {
    if b.upper.PosInf? then b.lower else b.upper
  }

  function WithInterp(m: Sketches, ts: int, k: ContextKey, lower: Float, upper: Float, count: nat): Sketches {
    if lower.Finite? && upper.Finite? then Inserted(m, ts, k, Interpolated(lower.r, upper.r, count)) else m
  }

  function AddedBucket(hash: Context -> ContextKey, s: State, b: HistogramBucket, now: real): State {
    if Discarded(b) then s
    else
      var k := hash(BucketContext(b));
      var delta := Delta(s, k, b);
      State(
        s.tracked.Track(k, BucketContext(b), b.timestamp),
        if delta <= 0 then s.sketches else WithInterp(s.sketches, SamplerState.Truncate(b.timestamp), k, b.lower, UpperUsed(b), delta),
        if b.monotonic then s.lastBucketValue[k := b.value] else s.lastBucketValue,
        if b.monotonic then s.lastSeenBucket[k := now] else s.lastSeenBucket)
  }

  function Committed(s: State, t: real): State {
    s.(tracked := s.tracked.Expire(t - SamplerState.DEFAULT_EXPIRY),
       sketches := s.sketches - Before(s.sketches, SamplerState.Truncate(t)))
  }

  function Expired(s: State, now: real): set<ContextKey> {
    set k | k in s.lastSeenBucket && now - s.lastSeenBucket[k] > BUCKET_EXPIRY
  }

  function Flushed(s: State, now: real): State {
    s.(lastBucketValue := s.lastBucketValue - Expired(s, now), lastSeenBucket := s.lastSeenBucket - Expired(s, now))
  }

  // ----- runs -----

  /** `AddSample` only matters here for the context it tracks. */
  datatype Op =
    | AddSample(context: Context, t: real)
    | AddBucket(b: HistogramBucket, now: real)
    | Commit(t: real)
    | Flush(now: real)

  function Step(hash: Context -> ContextKey, s: State, op: Op): State {
    match op
    case AddSample(c, t) => s.(tracked := s.tracked.Track(hash(c), c, t))
    case AddBucket(b, now) => AddedBucket(hash, s, b, now)
    case Commit(t) => Committed(s, t)
    case Flush(now) => Flushed(s, now)
  }

  function Prefix(ops: seq<Op>): seq<Op>
    requires ops != []
  {
    ops[..|ops| - 1]
  }

  function Run(hash: Context -> ContextKey, ops: seq<Op>): State {
    if ops == [] then INITIAL else Step(hash, Run(hash, Prefix(ops)), ops[|ops| - 1])
  }

  /** In every run the two bucket maps hold the same keys. */
  lemma {:induction false} SameKeys(hash: Context -> ContextKey, ops: seq<Op>)
    ensures Run(hash, ops).lastBucketValue.Keys == Run(hash, ops).lastSeenBucket.Keys
  {
    if ops != [] {
      SameKeys(hash, Prefix(ops));
    }
  }

  // ----- monotonic buckets telescope -----

  predicate CountsFor(hash: Context -> ContextKey, op: Op, k: ContextKey) {
    op.AddBucket? && !Discarded(op.b) && hash(BucketContext(op.b)) == k
  }

  /** How many values one operation inserts into the sketches of k. */
  function InsertedBy(hash: Context -> ContextKey, s: State, op: Op, k: ContextKey): nat {
    if CountsFor(hash, op, k) && Delta(s, k, op.b) > 0 && op.b.lower.Finite? && UpperUsed(op.b).Finite? then Delta(s, k, op.b)
    else 0
  }

  function TotalInserted(hash: Context -> ContextKey, ops: seq<Op>, k: ContextKey): nat {
    if ops == [] then 0
    else TotalInserted(hash, Prefix(ops), k) + InsertedBy(hash, Run(hash, Prefix(ops)), ops[|ops| - 1], k)
  }

  /** The number of values a sketch holds. */
  function CountIn(sketch: seq<Insertion>): nat {
    if sketch == [] then 0
    else CountIn(sketch[..|sketch| - 1]) + match sketch[|sketch| - 1] case Value(_, _) => 1 case Interpolated(_, _, n) => n
  }

  /** `InsertedBy` is what the operation adds to the sketch it touches, and no other sketch of k grows. */
  lemma InsertedByIsGrowth(hash: Context -> ContextKey, s: State, op: Op, k: ContextKey, ts: int)
    requires op.AddBucket?
    ensures CountIn(At(Step(hash, s, op).sketches, ts, k))
         == CountIn(At(s.sketches, ts, k)) +
            if ts == SamplerState.Truncate(op.b.timestamp) then InsertedBy(hash, s, op, k) else 0
  {
    var before, after := At(s.sketches, ts, k), At(Step(hash, s, op).sketches, ts, k);
    if after != before {
      assert after[..|after| - 1] == before;
    }
  }

  /** The raw values of the usable buckets of k, in order. */
  function RawValues(hash: Context -> ContextKey, ops: seq<Op>, k: ContextKey): seq<int> {
    if ops == [] then []
    else RawValues(hash, Prefix(ops), k) + if CountsFor(hash, ops[|ops| - 1], k) then [ops[|ops| - 1].b.value] else []
  }

  /** The first value plus every increase after it. */
  function Climb(values: seq<int>): int {
    if values == [] then 0
    else
      var n := |values| - 1;
      if n == 0 then values[0]
      else Climb(values[..n]) + if values[n] > values[n - 1] then values[n] - values[n - 1] else 0
  }

  function LastBucketTime(hash: Context -> ContextKey, ops: seq<Op>, k: ContextKey): Option<real> {
    if ops == [] then None
    else if CountsFor(hash, ops[|ops| - 1], k) then Some(ops[|ops| - 1].now)
    else LastBucketTime(hash, Prefix(ops), k)
  }

  /** The buckets of k are monotonic, with a finite lower bound and an upper bound that is finite or absent. */
  ghost predicate PlainMonotonic(hash: Context -> ContextKey, ops: seq<Op>, k: ContextKey) {
    forall i :: 0 <= i < |ops| && CountsFor(hash, ops[i], k) ==>
      ops[i].b.monotonic && ops[i].b.lower.Finite? && (ops[i].b.upper.Finite? || ops[i].b.upper.PosInf?)
  }

  /** A flush after the last bucket of k came more than the bucket expiry later, and made the sampler forget k. */
  predicate Forgotten(hash: Context -> ContextKey, ops: seq<Op>, k: ContextKey) {
    if ops == [] || CountsFor(hash, ops[|ops| - 1], k) then false
    else
      var op, last := ops[|ops| - 1], LastBucketTime(hash, Prefix(ops), k);
      Forgotten(hash, Prefix(ops), k) || (op.Flush? && last.Some? && op.now - last.value > BUCKET_EXPIRY)
  }

  /** Until it forgets k the sampler remembers the last raw value of k and when it came. */
  lemma {:induction false} Remembered(hash: Context -> ContextKey, ops: seq<Op>, k: ContextKey)
    requires PlainMonotonic(hash, ops, k)
    ensures var s, values, last := Run(hash, ops), RawValues(hash, ops, k), LastBucketTime(hash, ops, k);
            && (values != [] <==> last.Some?) && (Forgotten(hash, ops, k) ==> last.Some?)
            && (k in s.lastBucketValue <==> last.Some? && !Forgotten(hash, ops, k))
            && (k in s.lastSeenBucket <==> k in s.lastBucketValue)
            && (k in s.lastBucketValue ==> s.lastBucketValue[k] == values[|values| - 1] && s.lastSeenBucket[k] == last.value)
  {
    if ops != [] {
      Remembered(hash, Prefix(ops), k);
    }
  }

  lemma ClimbMore(values: seq<int>, v: int)
    ensures Climb(values + [v]) ==
      if values == [] then v else Climb(values) + if v > values[|values| - 1] then v - values[|values| - 1] else 0
  {
    assert (values + [v])[..|values|] == values;
  }

  lemma InsertedByBucket(hash: Context -> ContextKey, s: State, op: Op, k: ContextKey)
    requires CountsFor(hash, op, k) && op.b.monotonic && op.b.lower.Finite? && (op.b.upper.Finite? || op.b.upper.PosInf?)
    ensures InsertedBy(hash, s, op, k) ==
      if k !in s.lastBucketValue then op.b.value
      else if op.b.value > s.lastBucketValue[k] then op.b.value - s.lastBucketValue[k] else 0
  {}

  /** What is counted a second time: when k had been forgotten, the next raw value enters in full. */
  function Recounted(hash: Context -> ContextKey, ops: seq<Op>, k: ContextKey): int {
    if ops == [] then 0
    else
      var before, op, values := Prefix(ops), ops[|ops| - 1], RawValues(hash, Prefix(ops), k);
      Recounted(hash, before, k) +
      if CountsFor(hash, op, k) && values != [] && Forgotten(hash, before, k) then
        var last := values[|values| - 1];
        if last <= op.b.value then last else op.b.value
      else 0
  }

  lemma {:induction false} RawPositive(hash: Context -> ContextKey, ops: seq<Op>, k: ContextKey)
    ensures forall i :: 0 <= i < |RawValues(hash, ops, k)| ==> RawValues(hash, ops, k)[i] > 0
  {
    if ops != [] {
      RawPositive(hash, Prefix(ops), k);
    }
  }

  lemma InsertedMore(hash: Context -> ContextKey, ops: seq<Op>, k: ContextKey)
    requires ops != [] && PlainMonotonic(hash, ops, k)
    ensures var before := Prefix(ops);
            InsertedBy(hash, Run(hash, before), ops[|ops| - 1], k) + Climb(RawValues(hash, before, k)) + Recounted(hash, before, k)
            == Climb(RawValues(hash, ops, k)) + Recounted(hash, ops, k)
  {
    var before, op := Prefix(ops), ops[|ops| - 1];
    if CountsFor(hash, op, k) {
      Remembered(hash, before, k);
      RawPositive(hash, before, k);
      InsertedByBucket(hash, Run(hash, before), op, k);
      ClimbMore(RawValues(hash, before, k), op.b.value);
    } else {
      assert RawValues(hash, ops, k) == RawValues(hash, before, k);
    }
  }

  /** The values inserted for k are its first raw value, the later increments, and what is counted again after k was forgotten. */
  lemma {:induction false} Telescope(hash: Context -> ContextKey, ops: seq<Op>, k: ContextKey)
    requires PlainMonotonic(hash, ops, k)
    ensures TotalInserted(hash, ops, k) == Climb(RawValues(hash, ops, k)) + Recounted(hash, ops, k)
  {
    if ops != [] {
      Telescope(hash, Prefix(ops), k);
      InsertedMore(hash, ops, k);
    }
  }

  /** No bucket of k comes after a flush that had forgotten k. */
  ghost predicate KeptAlive(hash: Context -> ContextKey, ops: seq<Op>, k: ContextKey) {
    forall i :: 0 <= i < |ops| && CountsFor(hash, ops[i], k) ==> !Forgotten(hash, ops[..i], k)
  }

  lemma {:induction false} NothingRecountedIff(hash: Context -> ContextKey, ops: seq<Op>, k: ContextKey)
    requires PlainMonotonic(hash, ops, k)
    ensures Recounted(hash, ops, k) >= 0
    ensures Recounted(hash, ops, k) == 0 <==> KeptAlive(hash, ops, k)
  {
    if ops != [] {
      var before, op := Prefix(ops), ops[|ops| - 1];
      assert forall i :: 0 <= i < |ops| - 1 ==> before[..i] == ops[..i] && before[i] == ops[i];
      NothingRecountedIff(hash, before, k);
      Remembered(hash, before, k);
      RawPositive(hash, before, k);
    }
  }

  ghost predicate Climbing(values: seq<int>) {
    forall i, j :: 0 <= i < j < |values| ==> values[i] <= values[j]
  }

  lemma {:induction false} ClimbOfClimbing(values: seq<int>)
    requires values != [] && Climbing(values)
    ensures Climb(values) == values[|values| - 1]
  {
    if |values| > 1 {
      ClimbOfClimbing(values[..|values| - 1]);
    }
  }

  /** When the raw values never decrease, the total inserted is the last raw value, exactly when no bucket comes after k was forgotten. */
  lemma LastValueTotalIff(hash: Context -> ContextKey, ops: seq<Op>, k: ContextKey)
    requires PlainMonotonic(hash, ops, k)
    requires Climbing(RawValues(hash, ops, k)) && RawValues(hash, ops, k) != []
    ensures TotalInserted(hash, ops, k) >= RawValues(hash, ops, k)[|RawValues(hash, ops, k)| - 1]
    ensures TotalInserted(hash, ops, k) == RawValues(hash, ops, k)[|RawValues(hash, ops, k)| - 1] <==> KeptAlive(hash, ops, k)
  {
    Telescope(hash, ops, k);
    ClimbOfClimbing(RawValues(hash, ops, k));
    NothingRecountedIff(hash, ops, k);
  }

  // ----- a commit never reads a missing context -----

  predicate Tracks(hash: Context -> ContextKey, op: Op, k: ContextKey) {
    match op
    case AddSample(c, _) => hash(c) == k
    case AddBucket(b, _) => CountsFor(hash, op, k)
    case _ => false
  }

  function TrackTime(op: Op): real {
    match op
    case AddBucket(b, _) => b.timestamp
    case AddSample(_, t) => t
    case Commit(t) => t
    case Flush(now) => now
  }

  /** The timestamps of each context are not negative and do not go back. */
  ghost predicate TimesInOrder(hash: Context -> ContextKey, ops: seq<Op>) {
    && (forall i, k :: 0 <= i < |ops| && Tracks(hash, ops[i], k) ==> TrackTime(ops[i]) >= 0.0)
    && (forall i, j, k :: 0 <= i < j < |ops| && Tracks(hash, ops[i], k) && Tracks(hash, ops[j], k) ==>
          TrackTime(ops[i]) <= TrackTime(ops[j]))
  }

  ghost predicate SketchesTracked(s: State) {
    forall ts, k :: Holds(s.sketches, ts, k) ==> k in s.tracked.contexts
  }

  function LastTracked(hash: Context -> ContextKey, ops: seq<Op>, k: ContextKey): Option<real> {
    if ops == [] then None
    else if Tracks(hash, ops[|ops| - 1], k) then Some(TrackTime(ops[|ops| - 1]))
    else LastTracked(hash, Prefix(ops), k)
  }

  lemma {:induction false} LastTrackedAt(hash: Context -> ContextKey, ops: seq<Op>, k: ContextKey) returns (i: nat)
    requires LastTracked(hash, ops, k).Some?
    ensures i < |ops| && Tracks(hash, ops[i], k) && TrackTime(ops[i]) == LastTracked(hash, ops, k).value
  {
    if Tracks(hash, ops[|ops| - 1], k) {
      i := |ops| - 1;
    } else {
      i := LastTrackedAt(hash, Prefix(ops), k);
    }
  }

  /** Every pending sketch of k is no newer than the time k was last seen, which is its last tracking time. */
  ghost predicate SeenInv(hash: Context -> ContextKey, ops: seq<Op>, s: State) {
    && s.tracked.Agree()
    && (forall k :: k in s.tracked.lastSeen ==> LastTracked(hash, ops, k) == Some(s.tracked.lastSeen[k]))
    && (forall ts, k :: Holds(s.sketches, ts, k) ==>
          k in s.tracked.lastSeen && ts <= SamplerState.Truncate(s.tracked.lastSeen[k]))
  }

  lemma TruncateFacts(t: real, u: real)
    ensures t <= u ==> SamplerState.Truncate(t) <= SamplerState.Truncate(u)
    ensures t >= 0.0 && SamplerState.Truncate(u) <= SamplerState.Truncate(t) ==> u < t + 1.0
  {
    assert t < 0.0 ==> t <= SamplerState.Truncate(t) as real;
    assert u < 0.0 ==> u <= SamplerState.Truncate(u) as real;
  }

  lemma TrackedBy(hash: Context -> ContextKey, s: State, op: Op, k: ContextKey)
    requires Tracks(hash, op, k) && s.tracked.Agree()
    ensures var s' := Step(hash, s, op);
            && s'.tracked.Agree()
            && s'.tracked.lastSeen == s.tracked.lastSeen[k := TrackTime(op)]
            && (forall ts, j :: Holds(s'.sketches, ts, j) ==>
                  Holds(s.sketches, ts, j) || (j == k && ts == SamplerState.Truncate(TrackTime(op))))
  {}

  lemma TrackStep(hash: Context -> ContextKey, ops: seq<Op>, k: ContextKey)
    requires ops != [] && TimesInOrder(hash, ops) && SeenInv(hash, Prefix(ops), Run(hash, Prefix(ops)))
    requires Tracks(hash, ops[|ops| - 1], k)
    ensures SeenInv(hash, ops, Run(hash, ops))
  {
    var s, op := Run(hash, Prefix(ops)), ops[|ops| - 1];
    TrackedBy(hash, s, op, k);
    assert Run(hash, ops) == Step(hash, s, op);
    if k in s.tracked.lastSeen {
      var i := LastTrackedAt(hash, Prefix(ops), k);
      assert Tracks(hash, ops[i], k);
      TruncateFacts(s.tracked.lastSeen[k], TrackTime(op));
    }
  }

  lemma CommitStep(hash: Context -> ContextKey, ops: seq<Op>)
    requires ops != [] && ops[|ops| - 1].Commit? && TimesInOrder(hash, ops)
    requires SeenInv(hash, Prefix(ops), Run(hash, Prefix(ops)))
    ensures SeenInv(hash, ops, Run(hash, ops))
  {
    var s, t, s' := Run(hash, Prefix(ops)), ops[|ops| - 1].t, Run(hash, ops);
    forall ts, k | Holds(s'.sketches, ts, k)
      ensures k in s'.tracked.lastSeen && ts <= SamplerState.Truncate(s'.tracked.lastSeen[k])
    {
      assert Holds(s.sketches, ts, k);
      var i := LastTrackedAt(hash, Prefix(ops), k);
      assert Tracks(hash, ops[i], k);
      TruncateFacts(s.tracked.lastSeen[k], t);
    }
  }

  lemma {:induction false} RunSeen(hash: Context -> ContextKey, ops: seq<Op>)
    requires TimesInOrder(hash, ops)
    ensures SeenInv(hash, ops, Run(hash, ops))
  {
    if ops != [] {
      assert forall i, k :: 0 <= i < |ops| - 1 ==> (Tracks(hash, ops[i], k) <==> Tracks(hash, Prefix(ops)[i], k));
      RunSeen(hash, Prefix(ops));
      var op := ops[|ops| - 1];
      match op
      case AddSample(c, t) => TrackStep(hash, ops, hash(c));
      case AddBucket(b, _) =>
        if CountsFor(hash, op, hash(BucketContext(b))) {
          TrackStep(hash, ops, hash(BucketContext(b)));
        }
      case Commit(_) => CommitStep(hash, ops);
      case Flush(_) =>
    }
  }

  /** No commit of a run with ordered timestamps can meet a sketch whose context is gone. */
  lemma CommitsSafe(hash: Context -> ContextKey, ops: seq<Op>)
    requires TimesInOrder(hash, ops)
    ensures SketchesTracked(Run(hash, ops))
  {
    RunSeen(hash, ops);
  }
}
