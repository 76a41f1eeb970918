/** The value types of pkg/metrics and pkg/aggregator/ckey that both samplers share. */
module Metrics {
  import opened Wrappers

  /** A 64-bit hash of a context; only equality matters. */
  datatype ContextKey = ContextKey(sum64: nat)

  datatype Context = Context(name: string, tags: seq<string>, host: string)

  /** A float64 with its exceptional values kept apart; rounding is not modelled. */
  datatype Float = Finite(r: real) | PosInf | NegInf | NaN

  datatype MetricType =
    | GaugeType | RateType | CountType | MonotonicCountType | CounterType
    | HistogramType | HistorateType | SetType | DistributionType

  datatype MetricSample = MetricSample(
    name: string,
    value: Float,
    rawValue: string,
    mtype: MetricType,
    tags: seq<string>,
    host: string,
    sampleRate: Float,
    timestamp: real)

  function ContextOf(x: MetricSample): Context {
    Context(x.name, x.tags, x.host)
  }

  /** One bucket: the samples accepted per context. The first sample of a context fixes the kind of its metric. */
  type ContextMetrics = map<ContextKey, seq<MetricSample>>

  function SamplesOf(cm: ContextMetrics, k: ContextKey): seq<MetricSample> {
    if k in cm then cm[k] else []
  }

  /** Whether `ContextMetrics.AddSample` keeps the sample instead of returning an error. */
  predicate Accepts(cm: ContextMetrics, k: ContextKey, x: MetricSample) {
    x.value.Finite? && (k in cm || x.mtype != DistributionType)
  }

  /** The sample as a metric takes it: its `addSample` gets the time of arrival beside the sample. */
  function Arrived(x: MetricSample, t: real): MetricSample {
    x.(timestamp := t)
  }

  function AddSample(cm: ContextMetrics, k: ContextKey, x: MetricSample): ContextMetrics {
    if Accepts(cm, k, x) then cm[k := SamplesOf(cm, k) + [x]] else cm
  }

  /** The sample injected into a bucket for an idle counter. */
  function ZeroSample(bucket: int): MetricSample {
    MetricSample("", Finite(0.0), "0.0", CounterType, [], "", Finite(1.0), bucket as real)
  }

  /**
   What `Metric.flush` yields for one context: one point per API type and name suffix. A rate gives its point the
   time of its last sample; every other metric takes the time of the flush.
   */
  datatype MetricPoint = MetricPoint(apiType: string, suffix: string, value: Float, ts: Option<real>)
}
