/**
 pkg/forwarder/blocked_endpoints.go: exponential backoff per endpoint. Times are nanoseconds,
 intervals are seconds as reals, and the random draw is a number in [0, 1).
 */
module BlockedEndpoints {
  import opened Wrappers

  const DEFAULT_RECOVERY_INTERVAL := 2
  const NANOSECONDS := 1000000000.0

  // ----- powers of two -----

  /** 2 to any integer power. */
  function Pow2(n: int): (r: real)
    ensures r > 0.0
    decreases if n < 0 then -n else n
  {
    if n == 0 then 1.0 else if n > 0 then 2.0 * Pow2(n - 1) else Pow2(n + 1) / 2.0
  }

  lemma Pow2Next(n: int)
    ensures Pow2(n + 1) == 2.0 * Pow2(n)
  {}

  lemma {:induction false} Pow2Monotone(m: int, n: int)
    requires m <= n
    ensures Pow2(m) <= Pow2(n)
    ensures m < n ==> 2.0 * Pow2(m) <= Pow2(n)
    decreases n - m
  {
    if m < n {
      Pow2Next(m);
      Pow2Monotone(m + 1, n);
    }
  }

  /** floor(log2(x)): the exponent of the power of two at or below x. */
  function FloorLog2(x: real): (e: int)
    requires x > 0.0
    ensures Pow2(e) <= x < Pow2(e + 1)
    decreases if x >= 1.0 then 0 else 1, if x >= 1.0 then x.Floor else (1.0 / x).Floor
  {
    if x >= 2.0 then
      var e := FloorLog2(x / 2.0);
      Pow2Next(e);
      Pow2Next(e + 1);
      e + 1
    else if x < 1.0 then
      var e := FloorLog2(2.0 * x);
      Pow2Next(e - 1);
      Pow2Next(e);
      e - 1
    else 0
  }

  // ----- configuration -----

  lemma ProductSign(x: real, y: real)
    ensures x > 0.0 && y > 0.0 ==> x * y > 0.0
    ensures x >= 0.0 && y >= 0.0 ==> x * y >= 0.0
    ensures x <= 0.0 && y >= 0.0 ==> x * y <= 0.0
  {}

  function Ratio(base: real, max: real): (q: real)
    requires base > 0.0 && max > 0.0
    ensures q > 0.0
  {
    var q := max / base;
    ProductSign(q, base);
    q
  }

  datatype Config = Config(factor: real, base: real, max: real, recoveryInterval: int, maxErrors: int)

  /** The settings as `newBlockedEndpoints` corrects them. */
  function Configured(factor: real, base: real, max: real, recoveryInterval: int, recoveryReset: bool): Config {
    var f := if factor < 2.0 then 2.0 else factor;
    var b := if base <= 0.0 then 2.0 else base;
    var m := if max <= 0.0 then 64.0 else max;
    var errors := FloorLog2(Ratio(b, m)) + 1;
    var recovery := if recoveryInterval <= 0 then DEFAULT_RECOVERY_INTERVAL else recoveryInterval;
    Config(f, b, m, if recoveryReset then errors else recovery, errors)
  }

  /** A corrected configuration: the level of `maxErrors` is the first above the maximum. */
  ghost predicate Proper(c: Config) {
    c.factor >= 2.0 && c.base > 0.0 && c.max > 0.0 && Level(c.base, c.maxErrors - 1) <= c.max < Level(c.base, c.maxErrors)
  }

  /** Seconds of backoff for a number of errors, before the maximum is applied: the base doubled once per error. */
  function Level(base: real, errors: int): real
    decreases if errors < 0 then -errors else errors
  {
    if errors == 0 then base else if errors > 0 then 2.0 * Level(base, errors - 1) else Level(base, errors + 1) / 2.0
  }

  /** The formula of the source. */
  lemma {:induction false} LevelIsPower(base: real, errors: int)
    ensures Level(base, errors) == base * Pow2(errors)
    decreases if errors < 0 then -errors else errors
  {
    if errors > 0 {
      LevelIsPower(base, errors - 1);
      Rescale(base, 2.0, Pow2(errors - 1));
    } else if errors < 0 {
      LevelIsPower(base, errors + 1);
      Rescale(base, 0.5, Pow2(errors + 1));
    }
  }

  lemma Rescale(b: real, x: real, y: real)
    ensures b * (x * y) == x * (b * y)
  {}

  lemma {:induction false} LevelPositive(base: real, errors: int)
    requires base > 0.0
    ensures Level(base, errors) > 0.0
    decreases if errors < 0 then -errors else errors
  {
    if errors != 0 {
      LevelPositive(base, if errors > 0 then errors - 1 else errors + 1);
    }
  }

  lemma MulMonotone(b: real, x: real, y: real)
    requires b > 0.0 && x <= y
    ensures b * x <= b * y
    ensures x < y ==> b * x < b * y
  {
    ProductSign(b, y - x);
    assert b * y - b * x == b * (y - x);
  }

  ghost predicate IsQuotient(q: real, base: real, max: real) {
    q * base == max
  }

  lemma ScaledQuotient(q: real, base: real, max: real)
    requires IsQuotient(q, base, max)
    ensures IsQuotient(q / 2.0, base, max / 2.0) && IsQuotient(2.0 * q, base, 2.0 * max)
  {}

  lemma SmallQuotient(q: real, base: real, max: real)
    requires IsQuotient(q, base, max) && base > 0.0 && 1.0 <= q < 2.0
    ensures base <= max < 2.0 * base
  {
    MulMonotone(base, 1.0, q);
    MulMonotone(base, q, 2.0);
  }

  lemma {:induction false} FloorLog2Levels(base: real, max: real, q: real)
    requires base > 0.0 && q > 0.0 && IsQuotient(q, base, max)
    ensures Level(base, FloorLog2(q)) <= max < Level(base, FloorLog2(q) + 1)
    decreases if q >= 1.0 then 0 else 1, if q >= 1.0 then q.Floor else (1.0 / q).Floor
  {
    ScaledQuotient(q, base, max);
    if q >= 2.0 {
      FloorLog2Levels(base, max / 2.0, q / 2.0);
      LevelNext(base, FloorLog2(q) - 1);
      LevelNext(base, FloorLog2(q));
    } else if q < 1.0 {
      FloorLog2Levels(base, 2.0 * max, 2.0 * q);
      LevelNext(base, FloorLog2(q));
      LevelNext(base, FloorLog2(q) + 1);
    } else {
      SmallQuotient(q, base, max);
    }
  }

  lemma LevelNext(base: real, errors: int)
    ensures Level(base, errors + 1) == 2.0 * Level(base, errors)
  {}

  lemma RatioLevels(base: real, max: real)
    requires base > 0.0 && max > 0.0
    ensures var e := FloorLog2(Ratio(base, max)); Level(base, e) <= max < Level(base, e + 1)
  {
    FloorLog2Levels(base, max, Ratio(base, max));
  }

  lemma ConfiguredIsProper(factor: real, base: real, max: real, recoveryInterval: int, recoveryReset: bool)
    ensures Proper(Configured(factor, base, max, recoveryInterval, recoveryReset))
  {
    var c := Configured(factor, base, max, recoveryInterval, recoveryReset);
    RatioLevels(c.base, c.max);
  }

  lemma {:induction false} LevelMonotone(c: Config, m: int, n: int)
    requires c.base > 0.0 && m <= n
    ensures Level(c.base, m) <= Level(c.base, n)
    ensures m < n ==> 2.0 * Level(c.base, m) <= Level(c.base, n)
    decreases n - m
  {
    LevelPositive(c.base, m);
    if m < n {
      LevelNext(c.base, m);
      LevelMonotone(c, m + 1, n);
    }
  }

  /** `maxErrors` is the least number of errors whose unbounded backoff exceeds the maximum. */
  lemma MaxErrorsLeast(c: Config, n: int)
    requires Proper(c)
    ensures Level(c.base, n) > c.max <==> n >= c.maxErrors
  {
    if n >= c.maxErrors {
      LevelMonotone(c, c.maxErrors, n);
    } else {
      LevelMonotone(c, n, c.maxErrors - 1);
    }
  }

  // ----- the error counter -----

  function Closed(c: Config, errors: int): int {
    if errors + 1 > c.maxErrors then c.maxErrors else errors + 1
  }

  function Recovered(c: Config, errors: int): int {
    if errors - c.recoveryInterval < 0 then 0 else errors - c.recoveryInterval
  }

  datatype Event = Failure | Success

  /** The error count of an endpoint after its transactions failed and succeeded in this order. */
  function After(c: Config, events: seq<Event>): int {
    if events == [] then 0
    else
      var errors := After(c, events[..|events| - 1]);
      if events[|events| - 1].Failure? then Closed(c, errors) else Recovered(c, errors)
  }

  ghost predicate StaysInRange(c: Config) {
    forall events: seq<Event> :: 0 <= After(c, events) <= c.maxErrors
  }

  /** In every run the count stays between 0 and the maximum, exactly when the maximum is at least half the base. */
  lemma InRangeIff(factor: real, base: real, max: real, recoveryInterval: int, recoveryReset: bool)
    ensures var c := Configured(factor, base, max, recoveryInterval, recoveryReset);
            StaysInRange(c) <==> 2.0 * c.max >= c.base
  {
    var c := Configured(factor, base, max, recoveryInterval, recoveryReset);
    ConfiguredIsProper(factor, base, max, recoveryInterval, recoveryReset);
    MaxErrorsLeast(c, -1);
    assert Level(c.base, -1) == c.base / 2.0;
    if 2.0 * c.max >= c.base {
      forall events: seq<Event>
        ensures 0 <= After(c, events) <= c.maxErrors
      {
        InRange(c, events);
      }
    } else {
      var none: seq<Event> := [];
      assert After(c, none) == 0 && c.maxErrors < 0;
    }
  }

  lemma {:induction false} InRange(c: Config, events: seq<Event>)
    requires c.maxErrors >= 0 && c.recoveryInterval >= 0
    ensures 0 <= After(c, events) <= c.maxErrors
  {
    if events != [] {
      InRange(c, events[..|events| - 1]);
    }
  }

  /** In every run, a success never raises the count, exactly when the maximum is at least half the base. */
  lemma SuccessNeverRaisesIff(factor: real, base: real, max: real, recoveryInterval: int, recoveryReset: bool)
    ensures var c := Configured(factor, base, max, recoveryInterval, recoveryReset);
            (forall events: seq<Event> {:trigger After(c, events)} :: After(c, events + [Success]) <= After(c, events))
            <==> 2.0 * c.max >= c.base
  {
    var c := Configured(factor, base, max, recoveryInterval, recoveryReset);
    ConfiguredIsProper(factor, base, max, recoveryInterval, recoveryReset);
    MaxErrorsLeast(c, -1);
    assert Level(c.base, -1) == c.base / 2.0;
    if 2.0 * c.max >= c.base {
      forall events: seq<Event>
        ensures After(c, events + [Success]) <= After(c, events)
      {
        InRange(c, events);
        AfterMore(c, events, Success);
      }
    } else {
      AfterMore(c, [], Failure);
      AfterMore(c, [Failure], Success);
      assert [] + [Failure] == [Failure];
      assert After(c, [Failure]) == c.maxErrors && After(c, [Failure] + [Success]) == 0;
    }
  }

  lemma AfterMore(c: Config, events: seq<Event>, e: Event)
    ensures After(c, events + [e]) == if e.Failure? then Closed(c, After(c, events)) else Recovered(c, After(c, events))
  {
    assert (events + [e])[..|events|] == events;
  }

  /** A concrete case: with base 8, maximum 1 and recovery_reset, a success takes a clean endpoint to two errors. */
  lemma SuccessCanRaise()
    ensures Recovered(Configured(2.0, 8.0, 1.0, 2, true), 0) == 2
  {
    SmallMaximum();
  }

  /** Without recovery_reset, a failure takes the same endpoint to minus two errors and a success back to none. */
  lemma SuccessCanRaiseAfterFailure()
    ensures var c := Configured(2.0, 8.0, 1.0, 2, false); After(c, [Failure]) == -2 && After(c, [Failure, Success]) == 0
  {
    SmallMaximum();
    var c := Configured(2.0, 8.0, 1.0, 2, false);
    AfterMore(c, [], Failure);
    AfterMore(c, [Failure], Success);
    assert [] + [Failure] == [Failure] && [Failure] + [Success] == [Failure, Success];
  }

  lemma SmallMaximum()
    ensures forall reset :: Configured(2.0, 8.0, 1.0, 2, reset).maxErrors == -2
  {
    assert Pow2(-3) == 0.125 && Pow2(-2) == 0.25;
    var e := FloorLog2(1.0 / 8.0);
    if e < -3 {
      Pow2Monotone(e + 1, -3);
    } else if e > -3 {
      Pow2Monotone(-2, e);
    }
  }

  function AfterFrom(c: Config, errors: int, n: nat): int {
    if n == 0 then errors else Recovered(c, AfterFrom(c, errors, n - 1))
  }

  /** n successes in a row clear the block exactly when n recovery intervals cover the count. */
  lemma {:induction false} RecoveriesClear(c: Config, errors: nat, n: nat)
    requires c.recoveryInterval > 0
    ensures AfterFrom(c, errors, n) == if errors - n * c.recoveryInterval < 0 then 0 else errors - n * c.recoveryInterval
    ensures AfterFrom(c, errors, n) == 0 <==> n * c.recoveryInterval >= errors
  {
    if n > 0 {
      RecoveriesClear(c, errors, n - 1);
      assert n * c.recoveryInterval == (n - 1) * c.recoveryInterval + c.recoveryInterval;
    }
  }

  /** Failures in a row count one by one up to the maximum, from whatever count that is not above it. */
  lemma {:induction false} FailuresCount(c: Config, events: seq<Event>, n: nat)
    requires After(c, events) <= c.maxErrors
    ensures After(c, events + Failures(n)) == if After(c, events) + n > c.maxErrors then c.maxErrors else After(c, events) + n
  {
    if n == 0 {
      assert events + Failures(0) == events;
    } else {
      FailuresCount(c, events, n - 1);
      assert events + Failures(n) == events + Failures(n - 1) + [Failure];
      AfterMore(c, events + Failures(n - 1), Failure);
    }
  }

  function Failures(n: nat): seq<Event> {
    seq(n, _ => Failure)
  }

  /** The settings that are corrected, and to what. */
  lemma SettingsCorrected(factor: real, base: real, max: real, recoveryInterval: int, recoveryReset: bool)
    ensures var c := Configured(factor, base, max, recoveryInterval, recoveryReset);
            && c.factor == (if factor < 2.0 then 2.0 else factor)
            && c.base == (if base <= 0.0 then 2.0 else base) && c.max == (if max <= 0.0 then 64.0 else max)
            && c.recoveryInterval == (if recoveryReset then c.maxErrors else if recoveryInterval <= 0 then 2 else recoveryInterval)
  {}

  // ----- the backoff -----

  predicate Draw(u: real) {
    0.0 <= u < 1.0
  }

  function RandomBetween(min: real, max: real, u: real): real {
    u * (max - min) + min
  }

  /** Seconds to wait after this many errors. */
  function Backoff(c: Config, errors: int, u: real): real
    requires c.factor > 0.0
  {
    if errors <= 0 then 0.0
    else
      var t := Level(c.base, errors);
      if t > c.max then c.max else RandomBetween(t / c.factor, if c.max < t then c.max else t, u)
  }

  lemma BackoffByLevel(c: Config, errors: int, u: real)
    requires Proper(c)
    ensures Level(c.base, errors) > 0.0
    ensures Backoff(c, errors, u) ==
      if errors <= 0 then 0.0
      else if errors >= c.maxErrors then c.max
      else RandomBetween(Level(c.base, errors) / c.factor, Level(c.base, errors), u)
    ensures errors < c.maxErrors ==> Level(c.base, errors) <= c.max
  {
    MaxErrorsLeast(c, errors);
    LevelPositive(c.base, errors);
  }

  /** Between the level divided by the factor and the level itself, and never above the maximum. */
  lemma BackoffBounds(c: Config, errors: int, u: real)
    requires Proper(c) && Draw(u)
    ensures 0.0 <= Backoff(c, errors, u) <= c.max
    ensures errors > 0 <==> Backoff(c, errors, u) > 0.0
    ensures 0 < errors < c.maxErrors ==> Level(c.base, errors) / c.factor <= Backoff(c, errors, u) <= Level(c.base, errors)
    ensures errors >= c.maxErrors && errors > 0 ==> Backoff(c, errors, u) == c.max
  {
    var t := Level(c.base, errors);
    BackoffByLevel(c, errors, u);
    DivBounds(t, c.factor);
    BetweenBounds(t / c.factor, t, u);
  }

  /** The wait is the maximum above it, and otherwise what the draw takes from between the level over the factor and the level. */
  lemma {:induction false} BackoffDrawn(c: Config, errors: int, u: real)
    requires Proper(c)
    ensures var level := c.base * Pow2(errors);
            Backoff(c, errors, u) ==
            if errors <= 0 then 0.0 else if level > c.max then c.max else level / c.factor + u * (level - level / c.factor)
  {
    LevelIsPower(c.base, errors);
  }

  lemma DivBounds(t: real, f: real)
    requires t > 0.0 && f >= 2.0
    ensures 0.0 < t / f && 2.0 * (t / f) <= t
    ensures f == 2.0 ==> 2.0 * (t / f) == t
    ensures f > 2.0 ==> 2.0 * (t / f) < t
  {
    var q := t / f;
    assert q * f == t;
    ProductSign(q, f);
    ProductSign(q, f - 2.0);
    assert q * (f - 2.0) == t - 2.0 * q;
  }

  lemma BetweenBounds(min: real, max: real, u: real)
    requires Draw(u) && min <= max
    ensures min <= RandomBetween(min, max, u) <= max
  {
    ProductSign(u, max - min);
    ProductSign(1.0 - u, max - min);
    assert u * (max - min) + (1.0 - u) * (max - min) == max - min;
  }

  ghost predicate NeverShorter(c: Config)
    requires c.factor > 0.0
  {
    forall m: int, n: int, u: real, v: real :: m < n && Draw(u) && Draw(v) ==> Backoff(c, m, u) <= Backoff(c, n, v)
  }

  /** With two levels below the maximum, the base is at most a quarter of it. */
  lemma TwoLevels(c: Config, m: int, n: int)
    requires Proper(c) && 0 < m < n < c.maxErrors
    ensures 4.0 * c.base <= c.max
    ensures 2.0 * Level(c.base, m) <= Level(c.base, n)
  {
    MaxErrorsLeast(c, 2);
    assert Level(c.base, 2) == 2.0 * Level(c.base, 1) == 4.0 * c.base;
    LevelMonotone(c, m, n);
  }

  lemma LongerWait(c: Config, m: int, n: int, u: real, v: real)
    requires Proper(c) && m < n && Draw(u) && Draw(v) && (c.factor == 2.0 || 4.0 * c.base > c.max)
    ensures Backoff(c, m, u) <= Backoff(c, n, v)
  {
    BackoffBounds(c, m, u);
    BackoffBounds(c, n, v);
    if 0 < m && n < c.maxErrors {
      TwoLevels(c, m, n);
      BackoffByLevel(c, n, v);
      DivBounds(Level(c.base, n), c.factor);
    }
  }

  /** The draw that makes one error wait longer than two do at the least. */
  lemma HighDraw(q: real, d: real) returns (u: real)
    requires 0.0 < q < d
    ensures Draw(u) && u * d > q
  {
    u := (1.0 + q / d) / 2.0;
    assert (q / d) * d == q;
    ProductSign(q / d, d);
    ProductSign(1.0 - q / d, d);
    ProductSign(q / d - 1.0, d);
    assert (1.0 - q / d) * d == d - q;
    assert u * d == (d + q) / 2.0;
  }

  /** A factor above 2 with two levels below the maximum: one error can wait longer than two. */
  lemma ShorterWait(c: Config)
    requires Proper(c) && c.factor > 2.0 && 4.0 * c.base <= c.max
    ensures exists u, v :: Draw(u) && Draw(v) && Backoff(c, 1, u) > Backoff(c, 2, v)
  {
    var t := Level(c.base, 1);
    assert t == 2.0 * c.base && Level(c.base, 2) == 2.0 * t;
    var q := t / c.factor;
    DivBounds(t, c.factor);
    assert q * c.factor == t && (2.0 * q) * c.factor == 2.0 * t;
    assert (2.0 * t) / c.factor == 2.0 * q;
    var u := HighDraw(q, t - q);
    assert Backoff(c, 1, u) == u * (t - q) + q;
    assert Backoff(c, 2, 0.0) == 2.0 * q;
    assert Draw(0.0);
  }

  /** Whatever is drawn, more errors never mean a shorter wait, exactly when the factor is 2 or only one level is below the maximum. */
  lemma NeverShorterIff(c: Config)
    requires Proper(c)
    ensures NeverShorter(c) <==> c.factor == 2.0 || 4.0 * c.base > c.max
  {
    if c.factor == 2.0 || 4.0 * c.base > c.max {
      forall m: int, n: int, u: real, v: real | m < n && Draw(u) && Draw(v)
        ensures Backoff(c, m, u) <= Backoff(c, n, v)
      {
        LongerWait(c, m, n, u, v);
      }
    } else {
      ShorterWait(c);
      var u, v :| Draw(u) && Draw(v) && Backoff(c, 1, u) > Backoff(c, 2, v);
      assert 1 < 2;
    }
  }

  /** With factor 3, one error can wait longer than two. */
  lemma ShorterWaitExample()
    ensures var c := Configured(3.0, 1.0, 64.0, 2, false); Backoff(c, 1, 0.9) > Backoff(c, 2, 0.0)
  {
    var c := Configured(3.0, 1.0, 64.0, 2, false);
    assert Level(c.base, 1) == 2.0 && Level(c.base, 2) == 4.0;
  }

  // ----- the endpoints -----

  datatype Block = Block(nbError: int, until: int)

  type Blocks = map<string, Block>

  function Duration(c: Config, errors: int, u: real): int
    requires c.factor > 0.0
  {
    (Backoff(c, errors, u) * NANOSECONDS).Floor
  }

  function ErrorsOf(blocks: Blocks, endpoint: string): int {
    if endpoint in blocks then blocks[endpoint].nbError else 0
  }

  /** A transaction to an endpoint failed or succeeded; `u` is the random draw, `now` the clock. */
  datatype Call = Call(endpoint: string, event: Event, now: int, u: real)

  function Called(c: Config, blocks: Blocks, call: Call): Blocks
    requires c.factor > 0.0
  {
    var before := ErrorsOf(blocks, call.endpoint);
    var errors := if call.event.Failure? then Closed(c, before) else Recovered(c, before);
    blocks[call.endpoint := Block(errors, call.now + Duration(c, errors, call.u))]
  }

  function Run(c: Config, calls: seq<Call>): Blocks
    requires c.factor > 0.0
  {
    if calls == [] then map[] else Called(c, Run(c, calls[..|calls| - 1]), calls[|calls| - 1])
  }

  predicate IsBlocked(blocks: Blocks, endpoint: string, t: int) {
    endpoint in blocks && t < blocks[endpoint].until
  }

  function EventsOf(calls: seq<Call>, endpoint: string): seq<Event> {
    if calls == [] then []
    else
      var last := calls[|calls| - 1];
      EventsOf(calls[..|calls| - 1], endpoint) + if last.endpoint == endpoint then [last.event] else []
  }

  function LastCall(calls: seq<Call>, endpoint: string): Option<Call> {
    if calls == [] then None
    else
      var last := calls[|calls| - 1];
      if last.endpoint == endpoint then Some(last) else LastCall(calls[..|calls| - 1], endpoint)
  }

  /** The count of an endpoint depends on its own failures and successes only. */
  lemma {:induction false} EndpointsApart(c: Config, calls: seq<Call>, endpoint: string)
    requires c.factor > 0.0
    ensures ErrorsOf(Run(c, calls), endpoint) == After(c, EventsOf(calls, endpoint))
  {
    if calls != [] {
      var before, last := calls[..|calls| - 1], calls[|calls| - 1];
      EndpointsApart(c, before, endpoint);
      if last.endpoint == endpoint {
        AfterMore(c, EventsOf(before, endpoint), last.event);
      } else {
        assert EventsOf(before, endpoint) + [] == EventsOf(before, endpoint);
      }
    }
  }

  /** After any run an endpoint is blocked exactly for the backoff of its own history, counted from its last transaction. */
  lemma {:induction false} BlockedIff(c: Config, calls: seq<Call>, endpoint: string, t: int)
    requires c.factor > 0.0
    ensures IsBlocked(Run(c, calls), endpoint, t) <==>
            var last := LastCall(calls, endpoint);
            last.Some? && t < last.value.now + Duration(c, After(c, EventsOf(calls, endpoint)), last.value.u)
  {
    if calls != [] {
      var before, last := calls[..|calls| - 1], calls[|calls| - 1];
      EndpointsApart(c, calls, endpoint);
      if last.endpoint != endpoint {
        BlockedIff(c, before, endpoint, t);
        assert EventsOf(before, endpoint) + [] == EventsOf(before, endpoint);
      }
    }
  }

  /** A failure blocks its endpoint until the backoff of the new count is over, in whole nanoseconds; a success until that of its count. */
  lemma BlockedUntil(c: Config, blocks: Blocks, call: Call)
    requires c.factor > 0.0
    ensures var b := Called(c, blocks, call);
            && call.endpoint in b
            && var wait := Backoff(c, b[call.endpoint].nbError, call.u) * 1000000000.0;
               (b[call.endpoint].until - call.now) as real <= wait < (b[call.endpoint].until - call.now + 1) as real
    ensures forall e :: e != call.endpoint ==> ErrorsOf(Called(c, blocks, call), e) == ErrorsOf(blocks, e)
    ensures forall e, t :: e != call.endpoint ==> (IsBlocked(Called(c, blocks, call), e, t) <==> IsBlocked(blocks, e, t))
  {}

  /** The shortest wait after this many errors. */
  function ShortestBackoff(c: Config, errors: int): real
    requires c.factor > 0.0
  {
    if errors >= c.maxErrors then c.max else Level(c.base, errors) / c.factor
  }

  lemma DurationPositiveIff(c: Config, errors: int)
    requires Proper(c)
    ensures (forall u :: Draw(u) ==> Duration(c, errors, u) > 0) <==>
            errors > 0 && ShortestBackoff(c, errors) * NANOSECONDS >= 1.0
  {
    assert Draw(0.0);
    BackoffByLevel(c, errors, 0.0);
    forall u | Draw(u)
      ensures errors <= 0 ==> Duration(c, errors, u) == 0
      ensures errors > 0 && ShortestBackoff(c, errors) * NANOSECONDS >= 1.0 ==> Duration(c, errors, u) > 0
    {
      BackoffBounds(c, errors, u);
    }
  }

  /**
   Whatever came before, a failure blocks its endpoint for every draw, exactly when the maximum is not below
   the base and the shortest wait of the new count is at least a nanosecond.
   */
  lemma FailureBlocksIff(factor: real, base: real, max: real, recoveryInterval: int, recoveryReset: bool,
                         calls: seq<Call>, endpoint: string, now: int)
    ensures var c := Configured(factor, base, max, recoveryInterval, recoveryReset);
            var errors := Closed(c, After(c, EventsOf(calls, endpoint)));
            (forall u :: Draw(u) ==> IsBlocked(Run(c, calls + [Call(endpoint, Failure, now, u)]), endpoint, now))
            <==> c.max >= c.base && ShortestBackoff(c, errors) * NANOSECONDS >= 1.0
  {
    var c := Configured(factor, base, max, recoveryInterval, recoveryReset);
    var events := EventsOf(calls, endpoint);
    var errors := Closed(c, After(c, events));
    ConfiguredIsProper(factor, base, max, recoveryInterval, recoveryReset);
    MaxErrorsLeast(c, 0);
    if c.max >= c.base {
      InRange(c, events);
    }
    assert errors > 0 <==> c.max >= c.base;
    forall u | Draw(u)
      ensures IsBlocked(Run(c, calls + [Call(endpoint, Failure, now, u)]), endpoint, now) <==> Duration(c, errors, u) > 0
    {
      BlockedNow(c, calls, endpoint, now, u);
    }
    DurationPositiveIff(c, errors);
  }

  lemma BlockedNow(c: Config, calls: seq<Call>, endpoint: string, now: int, u: real)
    requires c.factor > 0.0
    ensures IsBlocked(Run(c, calls + [Call(endpoint, Failure, now, u)]), endpoint, now) <==>
            Duration(c, Closed(c, After(c, EventsOf(calls, endpoint))), u) > 0
  {
    var all := calls + [Call(endpoint, Failure, now, u)];
    assert all[..|calls|] == calls;
    BlockedIff(c, all, endpoint, now);
    AfterMore(c, EventsOf(calls, endpoint), Failure);
  }

  class BlockedEndpoints {
    const config: Config
    var errorPerEndpoint: map<string, Block>

    constructor (factor: real, base: real, max: real, recoveryInterval: int, recoveryReset: bool)
      ensures config == Configured(factor, base, max, recoveryInterval, recoveryReset) && Proper(config)
      ensures errorPerEndpoint == map[]
    {
      ConfiguredIsProper(factor, base, max, recoveryInterval, recoveryReset);
      config := Configured(factor, base, max, recoveryInterval, recoveryReset);
      errorPerEndpoint := map[];
    }

    /** `u` is the random draw, `now` the clock. */
    method Close(endpoint: string, now: int, u: real)
      requires Proper(config) && Draw(u)
      modifies this
      ensures errorPerEndpoint == Called(config, old(errorPerEndpoint), Call(endpoint, Failure, now, u))
    {
      var b := if endpoint in errorPerEndpoint then errorPerEndpoint[endpoint] else Block(0, 0);
      var nbError := b.nbError + 1;
      if nbError > config.maxErrors {
        nbError := config.maxErrors;
      }
      errorPerEndpoint := errorPerEndpoint[endpoint := Block(nbError, now + Duration(config, nbError, u))];
    }

    method Recover(endpoint: string, now: int, u: real)
      requires Proper(config) && Draw(u)
      modifies this
      ensures errorPerEndpoint == Called(config, old(errorPerEndpoint), Call(endpoint, Success, now, u))
    {
      var b := if endpoint in errorPerEndpoint then errorPerEndpoint[endpoint] else Block(0, 0);
      var nbError := b.nbError - config.recoveryInterval;
      if nbError < 0 {
        nbError := 0;
      }
      errorPerEndpoint := errorPerEndpoint[endpoint := Block(nbError, now + Duration(config, nbError, u))];
    }

    /** Whatever run of transactions led here: whether the backoff of this endpoint's last one is still running. */
    method IsBlock(endpoint: string, now: int) returns (blocked: bool)
      requires Proper(config)
      ensures forall calls {:trigger Run(config, calls)} :: errorPerEndpoint == Run(config, calls) ==>
                (blocked <==>
                 var last := LastCall(calls, endpoint);
                 last.Some? && now < last.value.now + Duration(config, After(config, EventsOf(calls, endpoint)), last.value.u))
    {
      blocked := endpoint in errorPerEndpoint && now < errorPerEndpoint[endpoint].until;
      forall calls | errorPerEndpoint == Run(config, calls)
        ensures IsBlocked(errorPerEndpoint, endpoint, now) <==>
                var last := LastCall(calls, endpoint);
                last.Some? && now < last.value.now + Duration(config, After(config, EventsOf(calls, endpoint)), last.value.u)
      {
        BlockedIff(config, calls, endpoint, now);
      }
    }
  }
}
