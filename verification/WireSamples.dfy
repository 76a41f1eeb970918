/**
 What the aggregator gets from one message, said about the message: the type behind each type field, the values, the
 name, the tags, the host and the origins. Main results: TypeOnWire, MessageSamples, CopyFollows, CounterIsCounted.
 */
module WireSamples {
  import opened Wrappers
  import opened Metrics
  import opened Bytes
  import opened Parse
  import opened Enrich
  import opened Batch
  import opened Server
  import opened MetricReading
  import PE = ParseEvents
  import PM = ParseMetrics
  import SS = SamplerState
  import SR = SamplerRuns
  import SV = SamplerValues

  // ----- tags -----

  const IS_TAG: string -> bool := tag => !("host:" <= tag) && !("dd.internal.entity_id:" <= tag)

  /** What follows the prefix in the last tag that has it, or the default. */
  ghost predicate LastTag(tags: seq<string>, prefix: string, default: string, value: string) {
    && (forall i :: LastAt(tags, prefix, i) ==> value == tags[i][|prefix|..])
    && ((forall i :: !LastAt(tags, prefix, i)) ==> value == default)
  }

  lemma LastTagIs(tags: seq<string>, prefix: string, default: string)
    ensures LastTag(tags, prefix, default, LastWith(tags, prefix).GetOr(default))
  {
    LastWithAt(tags, prefix);
    forall i | LastAt(tags, prefix, i)
      ensures LastWith(tags, prefix) == Some(tags[i][|prefix|..])
    {
      LastAtIs(tags, prefix, i);
    }
  }

  lemma {:induction false} KeptTagsPicks(tags: seq<string>) returns (at: seq<nat>)
    ensures Picks(at, KeptTags(tags), tags, IS_TAG)
  {
    if tags == [] {
      at := [];
    } else {
      var front, last := tags[..|tags| - 1], tags[|tags| - 1];
      assert tags == front + [last];
      var before := KeptTagsPicks(front);
      PicksMore(before, KeptTags(front), front, last, IS_TAG);
      at := if IS_TAG(last) then before + [|front|] else before;
    }
  }

  /** Where a sample or an event comes from, according to its tags. */
  ghost predicate OriginsAre(tags: seq<string>, origin: string, entityFirst: bool, originID: string, k8sOriginID: string) {
    exists entity :: LastTag(tags, "dd.internal.entity_id:", "", entity)
      && originID == (if entity != "" && entityFirst then "" else origin)
      && k8sOriginID == if entity != "" && entity != "none" then "kubernetes_pod_uid://" + entity else ""
  }

  /** The ordinary tags stay, in order; the last host tag names the host; the last entity tag names the origin. */
  lemma TagsReadOut(tags: seq<string>, defaultHostname: string, origin: string, entityFirst: bool)
    ensures var meta := MetadataOf(tags, defaultHostname, origin, entityFirst);
            && KeepsOnly(meta.tags, tags, IS_TAG)
            && LastTag(tags, "host:", defaultHostname, meta.host)
            && OriginsAre(tags, origin, entityFirst, meta.origin, meta.k8sOrigin)
  {
    var at := KeptTagsPicks(tags);
    LastTagIs(tags, "host:", defaultHostname);
    LastTagIs(tags, "dd.internal.entity_id:", "");
  }

  // ----- samples -----

  /** The type field and the type that the aggregator gets. */
  predicate TypeSays(symbol: string, t: MetricType) {
    && IsType(symbol)
    && (t == GaugeType <==> symbol == "g") && (t == CounterType <==> symbol == "c")
    && (t == HistogramType <==> symbol == "h" || symbol == "ms")
    && (t == DistributionType <==> symbol == "d") && (t == SetType <==> symbol == "s")
  }

  /** A message is delivered under the type that its second field names: counters for c, gauges for g, and so on. */
  lemma TypeOnWire(c: Config, message: string, origin: string)
    requires MetricSamples(c, message, origin).Some?
    ensures |Split(message, '|')| >= 2 && MetricSamples(c, message, origin).value != []
    ensures forall x :: x in MetricSamples(c, message, origin).value ==> TypeSays(Split(message, '|')[1], x.sample.mtype)
  {
    var s := MetricOf(message, c.parseFloat).value;
    ReadsAttributes(message, c.parseFloat);
    SharedType(c, s, origin);
    var xs := MetricSamples(c, message, origin).value;
    forall x | x in xs
      ensures TypeSays(Split(message, '|')[1], x.sample.mtype)
    {
      var i :| 0 <= i < |xs| && xs[i] == x;
      TypeIs(Split(message, '|')[1], s.sampleType, x.sample.mtype);
    }
  }

  lemma TypeIs(symbol: string, t: PM.SampleType, delivered: MetricType)
    requires PM.ParseMetricType(symbol) == Some(t) && TypeFor(t, delivered)
    ensures TypeSays(symbol, delivered)
  {
    TypesAre(symbol);
  }

  lemma SharedType(c: Config, s: PM.Sample, origin: string)
    ensures var xs := WithExtraTags(EnrichedAll(Mapped(c, s), origin, c.settings), c.extraTags);
            && xs != [] && (forall i :: 0 <= i < |xs| ==> TypeFor(s.sampleType, xs[i].sample.mtype))
  {
    var m := Mapped(c, s);
    var values, all := if m.values == [] then [m.value] else m.values, EnrichedAll(m, origin, c.settings);
    forall i | 0 <= i < |all|
      ensures TypeFor(s.sampleType, all[i].sample.mtype)
    {
      assert all[i] == EnrichedOne(m, values[i], origin, c.settings);
      OneType(m, values[i], origin, c.settings);
    }
  }

  lemma OneType(x: PM.Sample, value: Float, origin: string, s: Settings)
    ensures TypeFor(x.sampleType, EnrichedOne(x, value, origin, s).sample.mtype)
  {}

  predicate TypeFor(t: PM.SampleType, delivered: MetricType) {
    match t
    case Gauge => delivered == GaugeType
    case Count => delivered == CounterType
    case Distribution => delivered == DistributionType
    case Histogram => delivered == HistogramType
    case Set => delivered == SetType
    case Timing => delivered == HistogramType
  }

  /** The mapper may rename a sample and add tags. */
  predicate MapsTo(c: Config, s: PM.Sample, name: string, tags: seq<string>) {
    if c.mapper.Some? && c.mapper.value(s.name).Some?
    then name == c.mapper.value(s.name).value.name && tags == s.tags + c.mapper.value(s.name).value.tags
    else name == s.name && tags == s.tags
  }

  /** The namespace goes before every name that does not begin with a prefix of the blacklist. */
  ghost predicate NamedAs(s: Settings, name: string, full: string) {
    full == if s.namespace != "" && exists k :: 0 <= k < |s.namespaceBlacklist| && s.namespaceBlacklist[k] <= name then name else s.namespace + name
  }

  ghost predicate DeliveredAs(c: Config, s: PM.Sample, origin: string, value: Float, x: Enriched) {
    exists name, tags, kept, host :: DeliveredBy(c, s, origin, value, x, name, tags, kept, host)
  }

  ghost predicate DeliveredBy(c: Config, s: PM.Sample, origin: string, value: Float, x: Enriched,
                              name: string, tags: seq<string>, kept: seq<string>, host: string)
  {
    && x.sample.value == value && x.sample.rawValue == s.setValue && x.sample.sampleRate == s.sampleRate
    && MapsTo(c, s, name, tags) && NamedAs(c.settings, name, x.sample.name)
    && KeepsOnly(kept, tags, IS_TAG) && x.sample.tags == kept + c.extraTags
    && LastTag(tags, "host:", c.settings.defaultHostname, host) && x.sample.host == (if c.settings.serverless then "" else host)
    && OriginsAre(tags, origin, c.settings.entityFirst, x.originID, x.k8sOriginID)
  }

  /** What the tags of a sample say, beside the sample. */
  ghost predicate MetaSays(c: Config, tags: seq<string>, origin: string, meta: Metadata) {
    && KeepsOnly(meta.tags, tags, IS_TAG)
    && LastTag(tags, "host:", c.settings.defaultHostname, meta.host)
    && OriginsAre(tags, origin, c.settings.entityFirst, meta.origin, meta.k8sOrigin)
  }

  lemma FromMeta(c: Config, s: PM.Sample, origin: string, value: Float, m: PM.Sample, meta: Metadata, name: string, t: MetricType)
    requires MapsTo(c, s, m.name, m.tags) && NamedAs(c.settings, m.name, name) && MetaSays(c, m.tags, origin, meta)
    ensures DeliveredAs(c, s, origin, value, Enriched(
              MetricSample(name, value, s.setValue, t, meta.tags + c.extraTags, if c.settings.serverless then "" else meta.host, s.sampleRate, 0.0),
              meta.origin, meta.k8sOrigin))
  {
    var x := Enriched(
      MetricSample(name, value, s.setValue, t, meta.tags + c.extraTags, if c.settings.serverless then "" else meta.host, s.sampleRate, 0.0),
      meta.origin, meta.k8sOrigin);
    assert DeliveredBy(c, s, origin, value, x, m.name, m.tags, meta.tags, meta.host);
  }

  lemma MappedSays(c: Config, s: PM.Sample)
    ensures var m := Mapped(c, s);
            && MapsTo(c, s, m.name, m.tags) && m.setValue == s.setValue && m.sampleRate == s.sampleRate
            && m.value == s.value && m.values == s.values && m.sampleType == s.sampleType
  {}

  lemma OneSays(c: Config, m: PM.Sample, origin: string, value: Float)
    ensures var one, meta := EnrichedOne(m, value, origin, c.settings), MetadataOf(m.tags, c.settings.defaultHostname, origin, c.settings.entityFirst);
            && NamedAs(c.settings, m.name, one.sample.name)
            && one == Enriched(
                 MetricSample(one.sample.name, value, m.setValue, one.sample.mtype, meta.tags, if c.settings.serverless then "" else meta.host, m.sampleRate, 0.0),
                 meta.origin, meta.k8sOrigin)
  {}

  lemma OneDelivered(c: Config, s: PM.Sample, origin: string, value: Float)
    ensures var one := EnrichedOne(Mapped(c, s), value, origin, c.settings);
            DeliveredAs(c, s, origin, value, one.(sample := one.sample.(tags := one.sample.tags + c.extraTags)))
  {
    var m := Mapped(c, s);
    var one, meta := EnrichedOne(m, value, origin, c.settings), MetadataOf(m.tags, c.settings.defaultHostname, origin, c.settings.entityFirst);
    MappedSays(c, s);
    OneSays(c, m, origin, value);
    TagsReadOut(m.tags, c.settings.defaultHostname, origin, c.settings.entityFirst);
    assert MetaSays(c, m.tags, origin, meta);
    FromMeta(c, s, origin, value, m, meta, one.sample.name, one.sample.mtype);
  }

  /**
   An accepted metric message becomes one sample for each of its values, in order, with its raw value and its rate, its
   name mapped and prefixed, its tags mapped, filtered and extended, and the host and origins that the tags name.
   */
  lemma MessageSamples(c: Config, message: string, origin: string)
    ensures MetricSamples(c, message, origin).Some? <==> MetricOf(message, c.parseFloat).Some?
    ensures MetricSamples(c, message, origin).Some? ==>
              var s, xs := MetricOf(message, c.parseFloat).value, MetricSamples(c, message, origin).value;
              var values := if s.values == [] then [s.value] else s.values;
              |xs| == |values| && forall i :: 0 <= i < |xs| ==> DeliveredAs(c, s, origin, values[i], xs[i])
  {
    if MetricSamples(c, message, origin).Some? {
      var s, xs := MetricOf(message, c.parseFloat).value, MetricSamples(c, message, origin).value;
      var values := if s.values == [] then [s.value] else s.values;
      forall i | 0 <= i < |xs|
        ensures DeliveredAs(c, s, origin, values[i], xs[i])
      {
        OneDelivered(c, s, origin, values[i]);
      }
    }
  }

  /** A histogram is followed by a distribution that differs from it in type and name alone, if copies are enabled. */
  lemma {:induction false} CopyFollows(c: Config, a: seq<Enriched>, x: Enriched, b: seq<Enriched>, copy: Enriched)
    requires copy.originID == x.originID && copy.k8sOriginID == x.k8sOriginID
    requires copy.sample.name == c.histToDistPrefix + x.sample.name && copy.sample.mtype == DistributionType
    requires copy.sample.value == x.sample.value && copy.sample.rawValue == x.sample.rawValue && copy.sample.tags == x.sample.tags
    requires copy.sample.host == x.sample.host && copy.sample.sampleRate == x.sample.sampleRate && copy.sample.timestamp == x.sample.timestamp
    ensures WithCopies(c, a + [x] + b) ==
            WithCopies(c, a) + (if c.histToDist && x.sample.mtype == HistogramType then [x, copy] else [x]) + WithCopies(c, b)
  {
    if b == [] {
      assert (a + [x] + b)[..|a|] == a && a + [x] + b == a + [x];
    } else {
      var front, last := b[..|b| - 1], b[|b| - 1];
      assert (a + [x] + b)[..|a| + |b|] == a + [x] + front;
      CopyFollows(c, a, x, front, copy);
      var l, m := WithCopies(c, a), if c.histToDist && x.sample.mtype == HistogramType then [x, copy] else [x];
      assert l + m + WithCopies(c, front) + WithCopy(c, last) == l + m + (WithCopies(c, front) + WithCopy(c, last));
    }
  }

  lemma {:induction false} CopiesFrom(c: Config, xs: seq<Enriched>, x: Enriched)
    requires x in WithCopies(c, xs)
    ensures x in xs || (c.histToDist && x.sample.mtype == DistributionType && exists y :: y in xs && y.sample.mtype == HistogramType)
  {
    var front, last := xs[..|xs| - 1], xs[|xs| - 1];
    assert xs == front + [last];
    if x in WithCopies(c, front) {
      CopiesFrom(c, front, x);
    } else {
      assert x in WithCopy(c, last);
    }
  }

  /** With copies, a message still delivers under the type of its second field, but for the distributions beside histograms. */
  lemma DeliveredTypes(c: Config, message: string, origin: string, x: Enriched)
    requires !("_e{" <= message) && !("_sc" <= message) && x in OutputOfMessage(c, message, origin).samples
    ensures |Split(message, '|')| >= 2
    ensures TypeSays(Split(message, '|')[1], x.sample.mtype) ||
            (c.histToDist && x.sample.mtype == DistributionType && Split(message, '|')[1] in ["h", "ms"])
  {
    TypeOnWire(c, message, origin);
    CopiesFrom(c, MetricSamples(c, message, origin).value, x);
  }

  // ----- a delivered counter in the sampler -----

  /**
   A sample from a message of type c, once the time sampler has it, counts as alive from then on: after any run its
   context is a counter last sampled at that time, and a finite value belongs to its bucket.
   */
  lemma CounterIsCounted(c: Config, message: string, origin: string, x: Enriched, p: SS.Params, ops: seq<SR.Op>, t: real, b: int)
    requires MetricSamples(c, message, origin).Some? && x in MetricSamples(c, message, origin).value
    requires |Split(message, '|')| >= 2 && Split(message, '|')[1] == "c" && SV.InBucket(t, b, p.interval)
    ensures var k, all := p.hash(Context(x.sample.name, x.sample.tags, x.sample.host)), ops + [SR.Sample(x.sample, t)];
            && k in SR.Run(p, all).counters && SR.Run(p, all).counters[k] == t
            && (x.sample.value.Finite? ==> SV.Brings(p, all[|ops|], b, k, false))
  {
    TypeOnWire(c, message, origin);
    var all := ops + [SR.Sample(x.sample, t)];
    assert SR.Prefix(all) == ops;
    var k := p.hash(Context(x.sample.name, x.sample.tags, x.sample.host));
    SV.CountersStep(p, SR.Run(p, ops), all[|ops|], k);
  }

  // ----- events, and what kind of message it is -----

  /** An event keeps everything but its tags, which are filtered and extended, and a missing hostname. */
  lemma EventEnriched(e: PE.Event, origin: string, s: Settings, extraTags: seq<string>)
    ensures var r := EventWithExtraTags(EnrichedEventOf(e, origin, s), extraTags);
            && r.event.title == e.title && r.event.text == e.text && r.event.timestamp == e.timestamp
            && r.event.priority == e.priority && r.event.alertType == e.alertType
            && r.event.aggregationKey == e.aggregationKey && r.event.sourceType == e.sourceType
            && (exists kept :: KeepsOnly(kept, e.tags, IS_TAG) && r.event.tags == kept + extraTags)
            && (if e.hostname != "" then r.event.hostname == e.hostname else LastTag(e.tags, "host:", s.defaultHostname, r.event.hostname))
            && OriginsAre(e.tags, origin, s.entityFirst, r.originID, r.k8sOriginID)
  {
    TagsReadOut(e.tags, s.defaultHostname, origin, s.entityFirst);
  }

  /** The start of a message decides what it can deliver, and to which channel. */
  lemma StartDecides(c: Config, message: string, origin: string)
    ensures var out := OutputOfMessage(c, message, origin);
            if "_e{" <= message then
              out.samples == [] && out.serviceChecks == [] && (|out.events| == 1 <==> PE.EventOf(message).Parsed?) && |out.events| <= 1
            else if "_sc" <= message then
              out.samples == [] && out.events == [] &&
              out.serviceChecks == match c.parseServiceCheck(message, origin) case None => [] case Some(check) => [check]
            else
              out.events == [] && out.serviceChecks == [] && (out.samples != [] <==> MetricOf(message, c.parseFloat).Some?)
  {
    if MetricSamples(c, message, origin).Some? {
      SharedType(c, MetricOf(message, c.parseFloat).value, origin);
      SomeCopies(c, MetricSamples(c, message, origin).value);
    }
  }

  lemma SomeCopies(c: Config, xs: seq<Enriched>)
    requires xs != []
    ensures WithCopies(c, xs) != []
  {}
}
