/**
 The zero points of idle counters when samples and flushes get their times from one clock and flushes come regularly:
 how far apart they may come before a zero can be lost, for any settings. Main results: PromptFlushesIff, ShippedFlushesIff.
 */
module SamplerClock {
  import opened Metrics
  import opened ContextResolver
  import opened Wrappers
  import opened SamplerState
  import opened SamplerRuns
  import opened SamplerExpiry

  /** The clock counts from the epoch and does not go back. */
  ghost predicate Clocked(ops: seq<Op>) {
    && (forall i :: 0 <= i < |ops| ==> ops[i].t >= 0.0)
    && (forall i, j :: 0 <= i < j < |ops| ==> ops[i].t <= ops[j].t)
  }

  /** When the flush before came, or the run began. */
  function Since(ops: seq<Op>): real
    requires ops != []
  {
    if LastFlush(ops).Some? then LastFlush(ops).value else ops[0].t
  }

  /** Every flush comes at most `gap` seconds after the one before it, and the first one after the first operation. */
  ghost predicate Prompt(ops: seq<Op>, gap: real) {
    forall j :: 0 < j < |ops| && ops[j].Flush? ==> ops[j].t - Since(ops[..j]) <= gap
  }

  lemma ClockedIsOrdered(p: Params, ops: seq<Op>)
    requires Clocked(ops)
    ensures Ordered(p, ops) && SamplesAfterEpoch(ops)
  {}

  lemma ShorterRun(ops: seq<Op>, gap: real, n: nat)
    requires Clocked(ops) && Prompt(ops, gap) && n <= |ops|
    ensures Clocked(ops[..n]) && Prompt(ops[..n], gap)
  {
    assert forall j :: 0 < j < n ==> ops[..n][..j] == ops[..j];
  }

  /** The least bucket start that is not below `gap`: the last one below `interval + gap`. */
  function Span(gap: real, interval: Interval): (span: int)
    requires gap > 0.0
    ensures span % interval == 0 && gap <= span as real < gap + interval as real
  {
    var seconds := -((-gap).Floor);
    var n := (seconds + interval - 1) / interval;
    SpanFacts(seconds, n, interval);
    n * interval
  }

  lemma SpanFacts(seconds: int, n: int, interval: Interval)
    requires n == (seconds + interval - 1) / interval
    ensures (n * interval) % interval == 0 && seconds <= n * interval < seconds + interval
  {
    MultipleOf(n, interval);
  }

  /** The last bucket start that is not above the expiry of contexts. */
  function Horizon(interval: Interval): (h: int)
    ensures h % interval == 0 && 0 <= h <= 300 < h + interval
  {
    MultipleOf(300 / interval, interval);
    (300 / interval) * interval
  }

  // ----- one flush -----

  /** What the clock guarantees about pending buckets at the time of a cutoff. */
  ghost predicate Tidy(p: Params, s: State, cutoff: int) {
    && 0 <= s.lastCutOff <= cutoff && s.lastCutOff % p.interval == 0
    && forall b :: b in s.metrics ==> s.lastCutOff <= b <= cutoff && b % p.interval == 0
  }

  lemma StepTidy(p: Params, s: State, op: Op, now: int)
    requires Tidy(p, s, now) && op.t >= 0.0 && now <= BucketStart(op.t, p.interval)
    ensures var s', cutoff := Step(p, s, op), BucketStart(op.t, p.interval);
            s'.lastCutOff == (if op.Flush? then cutoff else s.lastCutOff) && Tidy(p, s', cutoff)
  {
    var cutoff := BucketStart(op.t, p.interval);
    BucketStartFacts(op.t, p.interval);
    if op.Flush? {
      forall b | b in s.metrics && StillOpen(b, cutoff, p.interval)
        ensures cutoff <= b
      {
        if b < cutoff {
          MultipleApart(b, cutoff, p.interval);
        }
      }
    }
  }

  function Now(p: Params, ops: seq<Op>): int {
    if ops == [] then 0 else BucketStart(ops[|ops| - 1].t, p.interval)
  }

  lemma NowGrows(p: Params, ops: seq<Op>)
    requires ops != [] && Clocked(ops)
    ensures Now(p, Prefix(ops)) <= BucketStart(ops[|ops| - 1].t, p.interval)
  {
    if |ops| > 1 {
      BucketStartMonotone(ops[|ops| - 2].t, ops[|ops| - 1].t, p.interval);
    } else {
      BucketStartFacts(ops[0].t, p.interval);
    }
  }

  lemma {:induction false} RunTidy(p: Params, ops: seq<Op>)
    requires Clocked(ops)
    ensures Tidy(p, Run(p, ops), Now(p, ops))
    ensures Run(p, ops).lastCutOff == if LastFlush(ops).Some? then BucketStart(LastFlush(ops).value, p.interval) else 0
  {
    if ops != [] {
      RunTidy(p, Prefix(ops));
      NowGrows(p, ops);
      StepTidy(p, Run(p, Prefix(ops)), ops[|ops| - 1], Now(p, Prefix(ops)));
    }
  }

  /** A flush in the same bucket closes nothing; a later one closes a bucket, unless all that is pending belongs to its own. */
  lemma FlushCloses(p: Params, s: State, cutoff: int)
    requires Tidy(p, s, cutoff) && cutoff % p.interval == 0
    ensures var closing := Closing(p, s, cutoff);
            && (forall b :: b in closing ==> s.lastCutOff <= b && b + p.interval <= cutoff && b % p.interval == 0)
            && (forall b :: b in s.metrics && b < cutoff ==> b in closing)
            && (s.metrics != map[] ==> closing <= s.metrics.Keys)
            && (s.lastCutOff < cutoff ==> cutoff in s.metrics || closing != {})
  {
    forall b | b in s.metrics && b < cutoff
      ensures b + p.interval <= cutoff
    {
      MultipleApart(b, cutoff, p.interval);
    }
    if s.lastCutOff < cutoff {
      MultipleApart(s.lastCutOff, cutoff, p.interval);
    }
    MultipleBelow(cutoff, p.interval);
    if forall b :: b !in s.metrics {
      assert s.metrics == map[];
      assert s.lastCutOff < cutoff ==> cutoff - p.interval in Closing(p, s, cutoff);
    } else {
      var b :| b in s.metrics;
      assert b < cutoff ==> b in Closing(p, s, cutoff);
    }
  }

  lemma MultipleBelow(a: int, interval: Interval)
    requires a % interval == 0
    ensures (a - interval) % interval == 0
  {
    MultipleOf(-1, interval);
    SumOfMultiples(a, -(interval as int), interval);
  }

  // ----- a counter and its anchor -----

  /**
   How far the cutoff may be ahead of a bucket `a` before a flush moves the last-seen time on: the bucket is pending; or
   the flush that set the cutoff closed it; or a later flush set the cutoff and closed nothing, because only its own bucket
   was pending.
   */
  ghost predicate Anchored(p: Params, s: State, a: int, gap: real)
    requires gap > 0.0
  {
    && 0 <= a && a % p.interval == 0
    && ( || (s.lastCutOff <= a && a in s.metrics)
         || (a + p.interval <= s.lastCutOff <= a + Span(gap, p.interval))
         || (a + p.interval <= s.lastCutOff && s.lastCutOff in s.metrics
             && s.lastCutOff as real < (a + Span(gap, p.interval) + p.interval) as real + gap))
  }

  ghost predicate Served(p: Params, s: State, k: ContextKey, gap: real)
    requires gap > 0.0
  {
    k in s.tracked.lastSeen && exists a: int :: a as real <= s.tracked.lastSeen[k] && Anchored(p, s, a, gap)
  }

  ghost predicate Close(p: Params, gap: real)
    requires gap > 0.0
  {
    (Span(gap, p.interval) + p.interval) as real + gap <= Horizon(p.interval) as real
  }

  /** What a flush does to one counter before contexts expire. */
  lemma Moved(p: Params, s: State, t: real, k: ContextKey)
    requires k in Flushed(p, s, t).counters && k in s.tracked.lastSeen
    ensures var cutoff := BucketStart(t, p.interval);
            var seen := BumpedTracked(p, s, Closing(p, s, cutoff)).lastSeen;
            && k in s.counters && k in seen && s.tracked.lastSeen[k] <= seen[k]
            && (forall b :: b in Closing(p, s, cutoff) ==> b as real <= seen[k])
            && (seen[k] >= t - DEFAULT_EXPIRY ==> k in Flushed(p, s, t).tracked.lastSeen && Flushed(p, s, t).tracked.lastSeen[k] == seen[k])
  {
    var cutoff := BucketStart(t, p.interval);
    var closing := Closing(p, s, cutoff);
    assert k in KeptCounters(p, s, closing);
    assert forall b :: b in closing ==> k in ZeroTargets(p, s, b);
  }

  /** A cutoff that is less than interval and gap ahead of a bucket is at most a span ahead. */
  lemma WithinSpan(p: Params, a: int, cutoff: int, gap: real)
    requires gap > 0.0 && a % p.interval == 0 && cutoff % p.interval == 0 && cutoff as real < (a + p.interval) as real + gap
    ensures cutoff <= a + Span(gap, p.interval)
  {
    var limit := a + Span(gap, p.interval);
    SumOfMultiples(a, Span(gap, p.interval), p.interval);
    if limit < cutoff {
      MultipleApart(limit, cutoff, p.interval);
    }
  }

  lemma SumOfMultiples(a: int, b: int, interval: Interval)
    requires a % interval == 0 && b % interval == 0
    ensures (a + b) % interval == 0
  {
    MultipleOf(a / interval + b / interval, interval);
  }

  /** A flush that closes a bucket moves the anchor there; one that closes nothing leaves it. */
  lemma NewAnchor(p: Params, s: State, t: real, gap: real, before: real, a: int) returns (a': int)
    requires gap > 0.0 && t >= 0.0 && t - before <= gap && Tidy(p, s, BucketStart(t, p.interval)) && Anchored(p, s, a, gap)
    requires s.lastCutOff > a ==> before < (s.lastCutOff + p.interval) as real
    requires forall b :: b in Closing(p, s, BucketStart(t, p.interval)) ==> before < (b + p.interval) as real
    ensures Anchored(p, Flushed(p, s, t), a', gap)
    ensures a' == a || a' in Closing(p, s, BucketStart(t, p.interval))
  {
    var cutoff := BucketStart(t, p.interval);
    var closing := Closing(p, s, cutoff);
    BucketStartFacts(t, p.interval);
    FlushCloses(p, s, cutoff);
    if b :| b in closing {
      a' := b;
      WithinSpan(p, b, cutoff, gap);
    } else {
      a' := a;
      StaysAnchored(p, s, t, gap, before, a);
    }
  }

  lemma StaysAnchored(p: Params, s: State, t: real, gap: real, before: real, a: int)
    requires gap > 0.0 && t >= 0.0 && t - before <= gap && Tidy(p, s, BucketStart(t, p.interval)) && Anchored(p, s, a, gap)
    requires s.lastCutOff > a ==> before < (s.lastCutOff + p.interval) as real
    requires Closing(p, s, BucketStart(t, p.interval)) == {}
    ensures Anchored(p, Flushed(p, s, t), a, gap)
  {
    var cutoff, s' := BucketStart(t, p.interval), Flushed(p, s, t);
    BucketStartFacts(t, p.interval);
    FlushCloses(p, s, cutoff);
    assert s'.lastCutOff == cutoff && s'.metrics.Keys == s.metrics.Keys;
  }

  /** While flushes come close enough, the time between a bucket and the cutoff it is anchored to is too short for the expiry. */
  lemma NotForgotten(p: Params, s: State, a: int, gap: real, t: real)
    requires gap > 0.0 && Close(p, gap) && Anchored(p, s, a, gap) && t < (s.lastCutOff + p.interval) as real
    requires s.lastCutOff % p.interval == 0
    ensures t - DEFAULT_EXPIRY < a as real
  {
    var limit := a + Horizon(p.interval);
    SumOfMultiples(a, Horizon(p.interval), p.interval);
    if s.lastCutOff < limit {
      MultipleApart(s.lastCutOff, limit, p.interval);
    }
  }

  lemma FlushServed(p: Params, s: State, t: real, k: ContextKey, gap: real, before: real, a: int)
    requires gap > 0.0 && Close(p, gap) && t >= 0.0 && t - before <= gap && Tidy(p, s, BucketStart(t, p.interval))
    requires k in s.tracked.lastSeen && a as real <= s.tracked.lastSeen[k] && Anchored(p, s, a, gap)
    requires s.lastCutOff > a ==> before < (s.lastCutOff + p.interval) as real
    requires forall b :: b in Closing(p, s, BucketStart(t, p.interval)) ==> before < (b + p.interval) as real
    requires k in Flushed(p, s, t).counters
    ensures Served(p, Flushed(p, s, t), k, gap)
  {
    var s' := Flushed(p, s, t);
    Moved(p, s, t, k);
    var a' := NewAnchor(p, s, t, gap, before, a);
    BucketStartFacts(t, p.interval);
    NotForgotten(p, s', a', gap, t);
  }

  /** Until the first flush nothing is pending from before the run began. */
  lemma {:induction false} NothingBefore(p: Params, ops: seq<Op>, t: real)
    requires LastFlush(ops).None? && forall i :: 0 <= i < |ops| ==> t <= ops[i].t
    ensures forall b :: b in Run(p, ops).metrics ==> t < (b + p.interval) as real
  {
    if ops != [] {
      NothingBefore(p, Prefix(ops), t);
      BucketStartFacts(ops[|ops| - 1].t, p.interval);
    }
  }

  /** The flush before came before the bucket of any cutoff or closing bucket was over. */
  lemma BeforeOver(p: Params, ops: seq<Op>, t: real, a: int, gap: real)
    requires ops != [] && Clocked(ops) && gap > 0.0 && Anchored(p, Run(p, ops), a, gap)
    requires t >= 0.0 && Tidy(p, Run(p, ops), BucketStart(t, p.interval))
    ensures var s := Run(p, ops);
            && (s.lastCutOff > a ==> Since(ops) < (s.lastCutOff + p.interval) as real)
            && forall b :: b in Closing(p, s, BucketStart(t, p.interval)) ==> Since(ops) < (b + p.interval) as real
  {
    RunTidy(p, ops);
    BucketStartFacts(t, p.interval);
    FlushCloses(p, Run(p, ops), BucketStart(t, p.interval));
    if LastFlush(ops).Some? {
      BucketStartFacts(LastFlush(ops).value, p.interval);
    } else {
      NothingBefore(p, ops, ops[0].t);
    }
  }

  ghost predicate AllServed(p: Params, s: State, gap: real)
    requires gap > 0.0
  {
    forall k :: k in s.counters ==> Served(p, s, k, gap)
  }

  ghost predicate SeenBy(s: State, t: real) {
    forall k :: k in s.tracked.lastSeen ==> s.tracked.lastSeen[k] <= t
  }

  lemma SeenStep(p: Params, s: State, op: Op, t: real)
    requires 0.0 <= op.t <= t && SeenBy(s, t)
    ensures SeenBy(Step(p, s, op), t)
  {
    if op.Flush? {
      BucketStartFacts(op.t, p.interval);
      var closing := Closing(p, s, BucketStart(op.t, p.interval));
      assert forall b :: b in closing ==> b as real <= op.t;
      assert forall k :: k in s.tracked.lastSeen ==> BumpedTracked(p, s, closing).lastSeen[k] <= t;
    }
  }

  /** No context was last seen later than the clock. */
  lemma {:induction false} SeenByNow(p: Params, ops: seq<Op>, t: real)
    requires forall i :: 0 <= i < |ops| ==> 0.0 <= ops[i].t <= t
    ensures SeenBy(Run(p, ops), t)
  {
    if ops != [] {
      SeenByNow(p, Prefix(ops), t);
      SeenStep(p, Run(p, Prefix(ops)), ops[|ops| - 1], t);
    }
  }

  lemma TrackedAgree(p: Params, ops: seq<Op>)
    requires Clocked(ops)
    ensures Run(p, ops).tracked.Agree()
  {
    ClockedIsOrdered(p, ops);
    OrderedSamples(p, ops);
    RunSeen(p, ops);
  }

  lemma SampleServed(p: Params, s: State, op: Op, k: ContextKey, gap: real)
    requires gap > 0.0 && op.Sample? && op.t >= 0.0 && Tidy(p, s, BucketStart(op.t, p.interval)) && s.tracked.Agree()
    requires SeenBy(s, op.t) && AllServed(p, s, gap) && k in Step(p, s, op).counters
    ensures Served(p, Step(p, s, op), k, gap)
  {
    var s' := Step(p, s, op);
    SeenAfterSample(p, s, op);
    BucketStartFacts(op.t, p.interval);
    if k in s.counters {
      var a: int :| a as real <= s.tracked.lastSeen[k] && Anchored(p, s, a, gap);
      assert Anchored(p, s', a, gap);
    } else {
      assert Anchored(p, s', BucketStart(op.t, p.interval), gap);
    }
  }

  lemma FlushStep(p: Params, ops: seq<Op>, gap: real, k: ContextKey)
    requires ops != [] && ops[|ops| - 1].Flush? && Clocked(ops) && Prompt(ops, gap) && gap > 0.0 && Close(p, gap)
    requires AllServed(p, Run(p, Prefix(ops)), gap) && k in Run(p, ops).counters
    ensures Served(p, Run(p, ops), k, gap)
  {
    var s, op := Run(p, Prefix(ops)), ops[|ops| - 1];
    CountersAfter(p, s, op, k);
    var a: int :| a as real <= s.tracked.lastSeen[k] && Anchored(p, s, a, gap);
    RunTidy(p, Prefix(ops));
    NowGrows(p, ops);
    TidyLater(p, s, Now(p, Prefix(ops)), BucketStart(op.t, p.interval));
    BeforeOver(p, Prefix(ops), op.t, a, gap);
    assert Prefix(ops) == ops[..|ops| - 1];
    FlushServed(p, s, op.t, k, gap, Since(Prefix(ops)), a);
  }

  lemma TidyLater(p: Params, s: State, now: int, later: int)
    requires Tidy(p, s, now) && now <= later
    ensures Tidy(p, s, later)
  {}

  lemma SampleStep(p: Params, ops: seq<Op>, gap: real, k: ContextKey)
    requires ops != [] && ops[|ops| - 1].Sample? && Clocked(ops) && gap > 0.0
    requires AllServed(p, Run(p, Prefix(ops)), gap) && k in Run(p, ops).counters
    ensures Served(p, Run(p, ops), k, gap)
  {
    var s, op := Run(p, Prefix(ops)), ops[|ops| - 1];
    RunTidy(p, Prefix(ops));
    NowGrows(p, ops);
    TidyLater(p, s, Now(p, Prefix(ops)), BucketStart(op.t, p.interval));
    TrackedAgree(p, Prefix(ops));
    SeenByNow(p, Prefix(ops), op.t);
    SampleServed(p, s, op, k, gap);
  }

  lemma {:induction false} RunServed(p: Params, ops: seq<Op>, gap: real)
    requires Clocked(ops) && Prompt(ops, gap) && gap > 0.0 && Close(p, gap)
    ensures AllServed(p, Run(p, ops), gap)
  {
    if ops != [] {
      ShorterRun(ops, gap, |ops| - 1);
      RunServed(p, Prefix(ops), gap);
      forall k | k in Run(p, ops).counters
        ensures Served(p, Run(p, ops), k, gap)
      {
        if ops[|ops| - 1].Sample? {
          SampleStep(p, ops, gap, k);
        } else {
          FlushStep(p, ops, gap, k);
        }
      }
    }
  }

  // ----- flushes all at once -----

  ghost predicate NoneForgotten(s: State, t: real) {
    forall k :: k in s.counters ==> k in s.tracked.lastSeen && t <= s.tracked.lastSeen[k]
  }

  lemma {:induction false} AllAtOnce(p: Params, ops: seq<Op>, gap: real)
    requires ops != [] && Clocked(ops) && Prompt(ops, gap) && gap <= 0.0
    ensures Since(ops) == ops[0].t && NoneForgotten(Run(p, ops), ops[0].t)
  {
    var s, op := Run(p, Prefix(ops)), ops[|ops| - 1];
    if |ops| > 1 {
      ShorterRun(ops, gap, |ops| - 1);
      AllAtOnce(p, Prefix(ops), gap);
      assert Prefix(ops) == ops[..|ops| - 1] && Prefix(ops)[0] == ops[0];
    } else {
      assert Prefix(ops) == [] && LastFlush(Prefix(ops)) == None;
    }
    if op.Flush? {
      AtOnceFlush(p, s, op.t);
    } else {
      TrackedAgree(p, Prefix(ops));
      SeenAfterSample(p, s, op);
    }
  }

  lemma AtOnceFlush(p: Params, s: State, t: real)
    requires NoneForgotten(s, t)
    ensures NoneForgotten(Flushed(p, s, t), t)
  {
    forall k | k in Flushed(p, s, t).counters
      ensures k in Flushed(p, s, t).tracked.lastSeen && t <= Flushed(p, s, t).tracked.lastSeen[k]
    {
      CountersAfter(p, s, Flush(t), k);
      Moved(p, s, t, k);
    }
  }

  // ----- no zero is lost -----

  lemma ServedKeepsZeros(p: Params, ops: seq<Op>, t: real)
    requires Clocked(ops) && forall k :: k in Run(p, ops).counters ==> k in Run(p, ops).tracked.lastSeen
    ensures ZerosTracked(p, Run(p, ops), t)
  {
    TrackedAgree(p, ops);
  }

  lemma NothingLostAt(p: Params, ops: seq<Op>, gap: real, i: nat)
    requires Clocked(ops) && Prompt(ops, gap) && FlushAt(ops, i) && (gap <= 0.0 || Close(p, gap))
    ensures ZerosTracked(p, Run(p, ops[..i]), ops[i].t)
  {
    ShorterRun(ops, gap, i);
    if i > 0 {
      if gap <= 0.0 {
        AllAtOnce(p, ops[..i], gap);
      } else {
        RunServed(p, ops[..i], gap);
      }
    }
    ServedKeepsZeros(p, ops[..i], ops[i].t);
  }

  lemma PromptLosesNothing(p: Params, ops: seq<Op>, gap: real)
    requires Clocked(ops) && Prompt(ops, gap) && (gap <= 0.0 || Close(p, gap))
    ensures NoZeroLost(p, ops)
  {
    forall i: nat | FlushAt(ops, i)
      ensures ZerosTracked(p, Run(p, ops[..i]), ops[i].t)
    {
      NothingLostAt(p, ops, gap, i);
    }
  }

  // ----- flushes further apart -----

  /** One counter, last sampled at `c` and still tracked; nothing is pending but perhaps the bucket of the cutoff. */
  ghost predicate Ready(s: State, k: ContextKey, c: real, cutoff: int) {
    && s.counters == map[k := c] && s.sketches == map[] && s.tracked.Agree() && s.lastCutOff == cutoff
    && k in s.tracked.lastSeen && s.tracked.lastSeen[k] == c
    && forall b :: b in s.metrics ==> b == cutoff
  }

  /** Its context is forgotten, though it is owed a zero in the bucket of the cutoff. */
  ghost predicate Lost(s: State, k: ContextKey, c: real, cutoff: int) {
    && s.counters == map[k := c] && s.sketches == map[] && s.tracked.Agree() && s.lastCutOff == cutoff
    && k !in s.tracked.lastSeen
    && forall b :: b in s.metrics ==> b == cutoff
  }

  /** A flush in the bucket of the cutoff does nothing but expire contexts. */
  lemma QuietFlush(p: Params, s: State, t: real, cutoff: int)
    requires s.lastCutOff == cutoff == BucketStart(t, p.interval) && s.sketches == map[] && forall b :: b in s.metrics ==> b == cutoff
    ensures Flushed(p, s, t) == s.(tracked := s.tracked.Expire(t - DEFAULT_EXPIRY))
  {
    assert Closing(p, s, cutoff) == {};
    assert BumpedTracked(p, s, {}).lastSeen == s.tracked.lastSeen;
    assert s.metrics - {} == s.metrics && KeptCounters(p, s, {}) == s.counters;
  }

  lemma StaysReady(p: Params, s: State, t: real, k: ContextKey, c: real, cutoff: int)
    requires Ready(s, k, c, cutoff) && BucketStart(t, p.interval) == cutoff
    ensures t <= c + DEFAULT_EXPIRY ==> Ready(Flushed(p, s, t), k, c, cutoff)
    ensures t > c + DEFAULT_EXPIRY ==> Lost(Flushed(p, s, t), k, c, cutoff)
  {
    QuietFlush(p, s, t, cutoff);
  }

  lemma StaysLost(p: Params, s: State, t: real, k: ContextKey, c: real, cutoff: int)
    requires Lost(s, k, c, cutoff) && BucketStart(t, p.interval) == cutoff
    ensures Lost(Flushed(p, s, t), k, c, cutoff)
  {
    QuietFlush(p, s, t, cutoff);
  }

  /** The flush that closes the first bucket: its zero does not move the last-seen time. */
  lemma FirstClosed(p: Params, s: State, t: real, k: ContextKey, c: real, cutoff: int)
    requires Ready(s, k, c, 0) && s.metrics.Keys == {0} && BucketStart(t, p.interval) == cutoff && p.interval <= cutoff
    requires 0.0 <= c && 0.0 < c + p.expiry && t <= c + DEFAULT_EXPIRY
    ensures Ready(Flushed(p, s, t), k, c, cutoff) && Flushed(p, s, t).metrics == map[]
  {
    assert 0 in s.metrics && Closing(p, s, cutoff) == {0};
    assert BumpedTracked(p, s, {0}).lastSeen == s.tracked.lastSeen;
    assert s.metrics - {0} == map[] && KeptCounters(p, s, {0}) == s.counters;
  }

  /** A sample of another context in a later bucket keeps the flush of that bucket from closing anything. */
  lemma SkippedFlush(p: Params, s: State, k: ContextKey, c: real, x: MetricSample, t: real, from: int, cutoff: int)
    requires Ready(s, k, c, from) && s.metrics == map[] && x.mtype == GaugeType && p.hash(ContextOf(x)) != k
    requires BucketStart(t, p.interval) == cutoff && t <= c + DEFAULT_EXPIRY
    ensures Ready(Flushed(p, AddedSample(p, s, x, t), t), k, c, cutoff)
  {
    var s1 := AddedSample(p, s, x, t);
    SeenAfterSample(p, s, Sample(x, t));
    assert s1.metrics.Keys == {cutoff} && s1.counters == s.counters && s1.sketches == s.sketches;
    assert Closing(p, s1, cutoff) == {};
    assert BumpedTracked(p, s1, {}).lastSeen == s1.tracked.lastSeen;
    assert s1.metrics - {} == s1.metrics && KeptCounters(p, s1, {}) == s1.counters;
  }

  /** The next flush is owed a zero that finds no context. */
  lemma LostIsDropped(p: Params, s: State, k: ContextKey, c: real, cutoff: int, t: real)
    requires Lost(s, k, c, cutoff) && cutoff as real < c + p.expiry && BucketStart(t, p.interval) == cutoff + p.interval
    ensures !ZerosTracked(p, s, t)
  {
    if forall b :: b !in s.metrics {
      assert s.metrics == map[];
    } else {
      var b :| b in s.metrics;
      assert b == cutoff;
    }
    assert cutoff in Closing(p, s, cutoff + p.interval) && k in ZeroTargets(p, s, cutoff);
  }

  // ----- a run that gets there -----

  /** A run so far: the last operation is a flush, or the only one, at time `now`. */
  ghost predicate Upto(ops: seq<Op>, now: real, gap: real) {
    ops != [] && Clocked(ops) && Prompt(ops, gap) && Since(ops) == now == ops[|ops| - 1].t
  }

  ghost predicate Reaches(p: Params, gap: real, s: State, now: real) {
    exists ops :: Upto(ops, now, gap) && Run(p, ops) == s
  }

  lemma FlushMore(ops: seq<Op>, gap: real, now: real, t: real) returns (more: seq<Op>)
    requires Upto(ops, now, gap) && now <= t <= now + gap
    ensures more == ops + [Flush(t)] && Prefix(more) == more[..|ops|] == ops && Upto(more, t, gap)
  {
    more := ops + [Flush(t)];
    assert Prefix(more) == ops && forall j :: 0 < j <= |ops| ==> more[..j] == ops[..j];
    assert ops[..|ops|] == ops;
  }

  lemma FlushReaches(p: Params, gap: real, s: State, now: real, t: real)
    requires Reaches(p, gap, s, now) && now <= t <= now + gap
    ensures Reaches(p, gap, Flushed(p, s, t), t)
  {
    var ops :| Upto(ops, now, gap) && Run(p, ops) == s;
    var more := FlushMore(ops, gap, now, t);
    assert Upto(more, t, gap) && Run(p, more) == Flushed(p, s, t);
  }

  lemma SampleReaches(p: Params, gap: real, s: State, now: real, x: MetricSample, t: real)
    requires Reaches(p, gap, s, now) && now <= t <= now + gap
    ensures Reaches(p, gap, Flushed(p, AddedSample(p, s, x, t), t), t)
  {
    var ops :| Upto(ops, now, gap) && Run(p, ops) == s;
    var one, more := ops + [Sample(x, t)], ops + [Sample(x, t), Flush(t)];
    assert Prefix(one) == ops && Prefix(more) == one && Since(one) == now;
    assert forall j :: 0 < j <= |ops| ==> more[..j] == ops[..j];
    assert ops[..|ops|] == ops && more[..|ops| + 1] == one;
    assert Upto(more, t, gap) && Run(p, more) == Flushed(p, AddedSample(p, s, x, t), t);
  }

  ghost predicate Quiet(s: State, k: ContextKey, c: real, cutoff: int, lost: bool) {
    if lost then Lost(s, k, c, cutoff) else Ready(s, k, c, cutoff)
  }

  lemma QuietStays(p: Params, s: State, t: real, k: ContextKey, c: real, cutoff: int, lost: bool)
    requires Quiet(s, k, c, cutoff, lost) && BucketStart(t, p.interval) == cutoff && (lost || t <= c + DEFAULT_EXPIRY)
    ensures Quiet(Flushed(p, s, t), k, c, cutoff, lost) && Flushed(p, s, t).metrics == s.metrics
  {
    QuietFlush(p, s, t, cutoff);
    if lost {
      StaysLost(p, s, t, k, c, cutoff);
    } else {
      StaysReady(p, s, t, k, c, cutoff);
    }
  }

  lemma QuietStep(p: Params, gap: real, s: State, now: real, t: real, k: ContextKey, c: real, cutoff: int, lost: bool) returns (s': State)
    requires Reaches(p, gap, s, now) && Quiet(s, k, c, cutoff, lost) && now <= t <= now + gap
    requires 0 <= cutoff && cutoff % p.interval == 0 && cutoff as real <= t < (cutoff + p.interval) as real
    requires lost || t <= c + DEFAULT_EXPIRY
    ensures Reaches(p, gap, s', t) && Quiet(s', k, c, cutoff, lost) && s'.metrics == s.metrics
  {
    s' := Flushed(p, s, t);
    FlushReaches(p, gap, s, now, t);
    CutoffOf(t, cutoff, p.interval);
    QuietStays(p, s, t, k, c, cutoff, lost);
  }

  function Times(n: nat, gap: real): real {
    if n == 0 then 0.0 else Times(n - 1, gap) + gap
  }

  /** Flushes at most `gap` apart lead from one time of a bucket to another and change nothing that matters. */
  lemma {:induction false} Advance(p: Params, gap: real, s: State, now: real, to: real, n: nat, k: ContextKey, c: real, cutoff: int, lost: bool)
    returns (s': State)
    requires gap > 0.0 && Reaches(p, gap, s, now) && Quiet(s, k, c, cutoff, lost)
    requires 0 <= cutoff && cutoff % p.interval == 0 && cutoff as real <= now <= to < (cutoff + p.interval) as real
    requires to - now <= Times(n, gap) && (lost || to <= c + DEFAULT_EXPIRY)
    ensures Reaches(p, gap, s', to) && Quiet(s', k, c, cutoff, lost) && s'.metrics == s.metrics
    decreases n
  {
    var t := if to <= now + gap then to else now + gap;
    s' := QuietStep(p, gap, s, now, t, k, c, cutoff, lost);
    if t < to {
      assert to - t <= Times(n - 1, gap);
      s' := Advance(p, gap, s', t, to, n - 1, k, c, cutoff, lost);
    }
  }

  lemma {:induction false} TimesIs(n: nat, gap: real)
    ensures Times(n, gap) == n as real * gap
  {
    if n > 0 {
      TimesIs(n - 1, gap);
    }
  }

  lemma EnoughSteps(d: real, gap: real) returns (n: nat)
    requires gap > 0.0
    ensures d <= Times(n, gap)
  {
    var q := d / gap;
    assert q * gap == d;
    n := if q < 0.0 then 0 else q.Floor + 1;
    Scaled(q, n as real, gap);
    TimesIs(n, gap);
  }

  lemma Scaled(q: real, r: real, gap: real)
    requires q <= r && gap > 0.0
    ensures q * gap <= r * gap
  {}

  lemma AdvanceTo(p: Params, gap: real, s: State, now: real, to: real, k: ContextKey, c: real, cutoff: int, lost: bool) returns (s': State)
    requires gap > 0.0 && Reaches(p, gap, s, now) && Quiet(s, k, c, cutoff, lost)
    requires 0 <= cutoff && cutoff % p.interval == 0 && cutoff as real <= now <= to < (cutoff + p.interval) as real
    requires lost || to <= c + DEFAULT_EXPIRY
    ensures Reaches(p, gap, s', to) && Quiet(s', k, c, cutoff, lost) && s'.metrics == s.metrics
  {
    var n := EnoughSteps(to - now, gap);
    s' := Advance(p, gap, s, now, to, n, k, c, cutoff, lost);
  }

  /** Its context is forgotten by a flush in the same bucket. */
  lemma Forgets(p: Params, gap: real, s: State, now: real, k: ContextKey, c: real, cutoff: int) returns (s': State, late: real)
    requires gap > 0.0 && Reaches(p, gap, s, now) && Ready(s, k, c, cutoff) && 0 <= cutoff && cutoff % p.interval == 0
    requires cutoff as real <= now <= c + DEFAULT_EXPIRY < (cutoff + p.interval) as real
    ensures Reaches(p, gap, s', late) && Lost(s', k, c, cutoff) && cutoff as real <= late < (cutoff + p.interval) as real
  {
    var last, next := c + DEFAULT_EXPIRY, (cutoff + p.interval) as real;
    var s1 := AdvanceTo(p, gap, s, now, last, k, c, cutoff, false);
    late := if last + gap < next then last + gap else (last + next) / 2.0;
    FlushReaches(p, gap, s1, last, late);
    CutoffOf(late, cutoff, p.interval);
    StaysReady(p, s1, late, k, c, cutoff);
    s' := Flushed(p, s1, late);
  }

  /** Then the next flush loses its zero. */
  lemma Loses(p: Params, gap: real, s: State, late: real, k: ContextKey, c: real, cutoff: int) returns (ops: seq<Op>)
    requires gap > 0.0 && Reaches(p, gap, s, late) && Lost(s, k, c, cutoff) && cutoff as real < c + p.expiry
    requires 0 <= cutoff && cutoff % p.interval == 0 && cutoff as real <= late < (cutoff + p.interval) as real
    ensures Clocked(ops) && Prompt(ops, gap) && !NoZeroLost(p, ops)
  {
    var next := cutoff + p.interval;
    var end := if late + gap < next as real then next as real - gap else late;
    var s1 := AdvanceTo(p, gap, s, late, end, k, c, cutoff, true);
    SumOfMultiples(cutoff, p.interval, p.interval);
    CutoffOf(next as real, next, p.interval);
    LostIsDropped(p, s1, k, c, cutoff, next as real);
    ops := LostLast(p, gap, s1, end, next as real);
  }

  lemma LostLast(p: Params, gap: real, s: State, now: real, t: real) returns (all: seq<Op>)
    requires Reaches(p, gap, s, now) && now <= t <= now + gap && !ZerosTracked(p, s, t)
    ensures Clocked(all) && Prompt(all, gap) && !NoZeroLost(p, all)
  {
    var ops :| Upto(ops, now, gap) && Run(p, ops) == s;
    all := FlushMore(ops, gap, now, t);
    assert FlushAt(all, |ops|) && all[|ops|].t == t;
  }

  // ----- the three ways to the last bucket before the expiry -----

  function OtherSample(c: Context): MetricSample {
    SomeSample(GaugeType).(name := c.name, tags := c.tags, host := c.host)
  }

  lemma FirstSample(p: Params, gap: real, c: real) returns (s: State)
    requires 0.0 <= c < p.interval as real
    ensures Reaches(p, gap, s, c) && Ready(s, p.hash(ContextOf(SomeSample(CounterType))), c, 0) && s.metrics.Keys == {0}
  {
    var ops := [Sample(SomeSample(CounterType), c)];
    CutoffOf(c, 0, p.interval);
    assert Prefix(ops) == [];
    AfterOneCounter(p, SomeSample(CounterType), c);
    s := OneCounter(p.hash(ContextOf(SomeSample(CounterType))), SomeSample(CounterType), c, 0);
    assert Run(p, Prefix(ops)) == INITIAL && LastFlush(Prefix(ops)) == None;
    assert Run(p, ops) == AddedSample(p, INITIAL, SomeSample(CounterType), c);
    assert Upto(ops, c, gap) && Run(p, ops) == s;
  }

  /** The first bucket is closed by a flush at the very start of a bucket that a gap and an interval can span. */
  lemma Jumps(p: Params, gap: real, s: State, now: real, k: ContextKey, c: real, cutoff: int) returns (s': State)
    requires gap > 0.0 && Reaches(p, gap, s, now) && Ready(s, k, c, 0) && s.metrics.Keys == {0} && 0.0 < c + p.expiry
    requires 0.0 <= c && 0.0 <= now < p.interval as real && p.interval <= cutoff && cutoff % p.interval == 0
    requires cutoff as real < p.interval as real + gap && cutoff as real <= c + DEFAULT_EXPIRY
    ensures Reaches(p, gap, s', cutoff as real) && Ready(s', k, c, cutoff) && s'.metrics == map[]
  {
    var t := cutoff as real;
    var from := if now + gap < t then t - gap else now;
    var s1 := AdvanceTo(p, gap, s, now, from, k, c, 0, false);
    FlushReaches(p, gap, s1, from, t);
    CutoffOf(t, cutoff, p.interval);
    FirstClosed(p, s1, t, k, c, cutoff);
    s' := Flushed(p, s1, t);
  }

  /** From there a sample of another context leads to a later bucket without closing anything. */
  lemma Skips(p: Params, gap: real, s: State, k: ContextKey, c: real, from: int, cutoff: int, other: Context) returns (s': State)
    requires gap > 0.0 && Reaches(p, gap, s, from as real) && Ready(s, k, c, from) && s.metrics == map[] && p.hash(other) != k
    requires 0 <= from < cutoff && from % p.interval == 0 && cutoff % p.interval == 0
    requires cutoff as real < (from + p.interval) as real + gap && cutoff as real <= c + DEFAULT_EXPIRY
    ensures Reaches(p, gap, s', cutoff as real) && Ready(s', k, c, cutoff)
  {
    var t := cutoff as real;
    var last := if from as real + gap < t then t - gap else from as real;
    var s1 := AdvanceTo(p, gap, s, from as real, last, k, c, from, false);
    SampleReaches(p, gap, s1, last, OtherSample(other), t);
    CutoffOf(t, cutoff, p.interval);
    SkippedFlush(p, s1, k, c, OtherSample(other), t, from, cutoff);
    s' := Flushed(p, AddedSample(p, s1, OtherSample(other), t), t);
  }

  lemma ToHorizon(p: Params, gap: real, k: ContextKey, c: real, other: Context) returns (s: State, now: real)
    requires gap > 0.0 && !Close(p, gap) && k == p.hash(ContextOf(SomeSample(CounterType))) && p.hash(other) != k
    requires 0.0 <= c < p.interval as real && Horizon(p.interval) as real < c + p.expiry
    ensures Reaches(p, gap, s, now) && Ready(s, k, c, Horizon(p.interval))
    ensures Horizon(p.interval) as real <= now <= c + DEFAULT_EXPIRY
  {
    var h := Horizon(p.interval);
    s := FirstSample(p, gap, c);
    now := c;
    if h > 0 {
      MultipleApart(0, h, p.interval);
      MultipleBelow(h, p.interval);
      var span := Span(gap, p.interval);
      if h == p.interval {
        s := Jumps(p, gap, s, now, k, c, h);
      } else {
        MultipleApart(0, span, p.interval);
        MultipleApart(p.interval, h, p.interval);
        var from := if span <= h - p.interval then span else h - p.interval;
        s := Jumps(p, gap, s, now, k, c, from);
        s := Skips(p, gap, s, k, c, from, h, other);
      }
      now := h as real;
    }
  }

  lemma Misses(p: Params, gap: real, other: Context) returns (ops: seq<Op>)
    requires gap > 0.0 && !Close(p, gap) && p.expiry + p.interval as real > DEFAULT_EXPIRY
    requires p.hash(other) != p.hash(ContextOf(SomeSample(CounterType)))
    ensures Clocked(ops) && Prompt(ops, gap) && !NoZeroLost(p, ops)
  {
    var k, h := p.hash(ContextOf(SomeSample(CounterType))), Horizon(p.interval);
    var high := (h + p.interval - 300) as real;
    var low := if h as real > p.expiry then h as real - p.expiry else 0.0;
    var c := (low + high) / 2.0;
    var s, now := ToHorizon(p, gap, k, c, other);
    var s', late := Forgets(p, gap, s, now, k, c, h);
    ops := Loses(p, gap, s', late, k, c, h);
  }

  /**
   With a clock that does not go back no zero is ever lost, exactly when one of these holds: contexts outlive counters by a
   bucket; all flushes come at once; or the gap between flushes, rounded up to buckets, plus a bucket and the gap once more
   does not reach beyond the last bucket start that the expiry of contexts covers.
   */
  lemma PromptFlushesIff(p: Params, gap: real)
    requires exists a, b :: p.hash(a) != p.hash(b)
    ensures (forall ops :: Clocked(ops) && Prompt(ops, gap) ==> NoZeroLost(p, ops))
       <==> p.expiry + p.interval as real <= DEFAULT_EXPIRY || gap <= 0.0 || Close(p, gap)
  {
    if p.expiry + p.interval as real <= DEFAULT_EXPIRY || gap <= 0.0 || Close(p, gap) {
      forall ops | Clocked(ops) && Prompt(ops, gap)
        ensures NoZeroLost(p, ops)
      {
        if p.expiry + p.interval as real <= DEFAULT_EXPIRY {
          ClockedIsOrdered(p, ops);
          RunNoZeroLost(p, ops);
        } else {
          PromptLosesNothing(p, ops, gap);
        }
      }
    } else {
      var a, b :| p.hash(a) != p.hash(b);
      var ops := Misses(p, gap, if p.hash(a) != p.hash(ContextOf(SomeSample(CounterType))) then a else b);
    }
  }

  /** With the shipped settings flushes may be 140 seconds apart. The default between flushes is 15 seconds. */
  lemma ShippedFlushesIff(hash: Context -> ContextKey, gap: real)
    requires exists a, b :: hash(a) != hash(b)
    ensures (forall ops :: Clocked(ops) && Prompt(ops, gap) ==> NoZeroLost(Params(BUCKET_SIZE, DEFAULT_EXPIRY, hash), ops)) <==> gap <= 140.0
  {
    var p := Params(BUCKET_SIZE, DEFAULT_EXPIRY, hash);
    PromptFlushesIff(p, gap);
    assert Horizon(BUCKET_SIZE) == 300;
    if gap > 0.0 {
      var span := Span(gap, BUCKET_SIZE);
      assert span % 10 == 0 && gap <= span as real < gap + 10.0;
      assert Close(p, gap) <==> (span + 10) as real + gap <= 300.0;
      assert gap <= 140.0 ==> span < 150;
      assert gap > 140.0 ==> span > 140;
    }
  }
}
