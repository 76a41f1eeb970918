/** pkg/dogstatsd/parse_metrics.go: the checks on the first two fields of a metric message. */
module ParseMetrics {
  import opened Wrappers
  import opened Metrics
  import opened Bytes

  datatype SampleType = Gauge | Count | Distribution | Histogram | Set | Timing

  /** A parsed metric message. `values` is empty when the message holds a single value. */
  datatype Sample = Sample(
    name: string,
    value: Float,
    values: seq<Float>,
    setValue: string,
    sampleType: SampleType,
    sampleRate: Float,
    tags: seq<string>)

  predicate HasMetricSampleFormat(message: string) {
    1 <= CountOf(message, '|') <= 3
  }

  datatype NameAndValue = NameAndValue(name: string, rawValue: string)

  /** The name is what stands before the first colon; neither part may be empty. */
  function ParseNameAndRawValue(raw: string): (r: Option<NameAndValue>)
    ensures r.Some? ==> raw == r.value.name + ":" + r.value.rawValue && ':' !in r.value.name
    ensures r.Some? ==> r.value.name != "" && r.value.rawValue != ""
  {
    var sep := Index(raw, ':');
    if sep == -1 || sep == 0 || sep + 1 == |raw| then None
    else
      IndexIsFirst(raw, ':');
      Some(NameAndValue(raw[..sep], raw[sep + 1..]))
  }

  lemma {:induction false} NameAndRawValueIff(name: string, rawValue: string)
    requires ':' !in name
    ensures ParseNameAndRawValue(name + ":" + rawValue) ==
            if name == "" || rawValue == "" then None else Some(NameAndValue(name, rawValue))
  {
    var raw := name + ":" + rawValue;
    IndexAt(name, rawValue, ':');
    assert raw[..|name|] == name && raw[|name| + 1..] == rawValue;
  }

  function Symbol(t: SampleType): (s: string)
    ensures s != "" && '|' !in s && '\n' !in s && '\r' !in s
  {
    match t
    case Gauge => "g"
    case Count => "c"
    case Histogram => "h"
    case Distribution => "d"
    case Set => "s"
    case Timing => "ms"
  }

  function ParseMetricType(raw: string): (r: Option<SampleType>)
    ensures forall t :: r == Some(t) <==> raw == Symbol(t)
  {
    if raw == "g" then Some(Gauge)
    else if raw == "c" then Some(Count)
    else if raw == "h" then Some(Histogram)
    else if raw == "d" then Some(Distribution)
    else if raw == "s" then Some(Set)
    else if raw == "ms" then Some(Timing)
    else None
  }
}
