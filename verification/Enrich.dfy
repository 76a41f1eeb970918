/** pkg/dogstatsd/enrich.go: from parsed messages to what the aggregator takes. */
module Enrich {
  import opened Wrappers
  import opened Metrics
  import opened Parse
  import PM = ParseMetrics
  import PE = ParseEvents

  const HOST_TAG := "host:"
  const ENTITY_TAG := "dd.internal.entity_id:"
  const ENTITY_NONE := "none"
  const POD_PREFIX := "kubernetes_pod_uid://"

  // ----- tags that are not tags -----

  predicate IsMetadata(tag: string) {
    HOST_TAG <= tag || ENTITY_TAG <= tag
  }

  function KeptTags(tags: seq<string>): (kept: seq<string>)
    ensures |kept| <= |tags|
  {
    if tags == [] then []
    else
      var last := tags[|tags| - 1];
      KeptTags(tags[..|tags| - 1]) + if IsMetadata(last) then [] else [last]
  }

  datatype Metadata = Metadata(tags: seq<string>, host: string, origin: string, k8sOrigin: string)

  /** The last host tag and the last entity tag hold; the rest of the tags stay, in order. */
  function MetadataOf(tags: seq<string>, defaultHostname: string, originTags: string, entityFirst: bool): Metadata {
    var host := LastWith(tags, HOST_TAG);
    var entity := LastWith(tags, ENTITY_TAG);
    Metadata(
      KeptTags(tags),
      if host.Some? then host.value else defaultHostname,
      if entity.Some? && entity.value != "" && entityFirst then "" else originTags,
      if entity.Some? && entity.value != "" && entity.value != ENTITY_NONE then POD_PREFIX + entity.value else "")
  }

  /** Filters the tags in place behind a write index; the first `n` entries are left. */
  method ExtractTagsMetadata(tags: array<string>, defaultHostname: string, originTags: string, entityFirst: bool)
    returns (n: nat, host: string, origin: string, k8sOrigin: string)
    modifies tags
    ensures n <= tags.Length
    ensures Metadata(tags[..n], host, origin, k8sOrigin) ==
            MetadataOf(old(tags[..]), defaultHostname, originTags, entityFirst)
  {
    host, n := defaultHostname, 0;
    var entity := "";
    ghost var was := tags[..];
    for i := 0 to tags.Length
      invariant n <= i && tags[i..] == was[i..]
      invariant tags[..n] == KeptTags(was[..i])
      invariant host == LastWith(was[..i], HOST_TAG).GetOr(defaultHostname)
      invariant entity == LastWith(was[..i], ENTITY_TAG).GetOr("")
    {
      var tag := tags[i];
      OneMoreTag(was, i, tag);
      if HOST_TAG <= tag {
        host := tag[|HOST_TAG|..];
      } else if ENTITY_TAG <= tag {
        entity := tag[|ENTITY_TAG|..];
      } else {
        tags[n] := tag;
        n := n + 1;
      }
    }
    assert was[..tags.Length] == was;
    origin := if entity == "" || !entityFirst then originTags else "";
    k8sOrigin := if entity != "" && entity != ENTITY_NONE then POD_PREFIX + entity else "";
  }

  lemma OneMoreTag(tags: seq<string>, i: nat, tag: string)
    requires i < |tags| && tags[i] == tag
    ensures KeptTags(tags[..i + 1]) == KeptTags(tags[..i]) + if IsMetadata(tag) then [] else [tag]
    ensures LastWith(tags[..i + 1], HOST_TAG) ==
            if HOST_TAG <= tag then Some(tag[|HOST_TAG|..]) else LastWith(tags[..i], HOST_TAG)
    ensures LastWith(tags[..i + 1], ENTITY_TAG) ==
            if ENTITY_TAG <= tag then Some(tag[|ENTITY_TAG|..]) else LastWith(tags[..i], ENTITY_TAG)
    ensures !(HOST_TAG <= tag && ENTITY_TAG <= tag)
  {
    assert tags[..i + 1] == tags[..i] + [tag];
    LastWithSnoc(tags[..i], tag, HOST_TAG);
    LastWithSnoc(tags[..i], tag, ENTITY_TAG);
    assert HOST_TAG <= tag ==> tag[0] == 'h';
    assert ENTITY_TAG <= tag ==> tag[0] == 'd';
  }

  lemma {:induction false} LastWithSnoc(fields: seq<string>, field: string, prefix: string)
    ensures LastWith(fields + [field], prefix) ==
            if prefix <= field then Some(field[|prefix|..]) else LastWith(fields, prefix)
  {
    if fields != [] {
      assert (fields + [field])[1..] == fields[1..] + [field];
      LastWithSnoc(fields[1..], field, prefix);
    }
  }

  /** Filtering keeps every ordinary tag as often as it occurred, and nothing else. */
  lemma {:induction false} KeptTagsExact(tags: seq<string>, t: string)
    ensures multiset(KeptTags(tags))[t] == if IsMetadata(t) then 0 else multiset(tags)[t]
  {
    if tags != [] {
      var init, last := tags[..|tags| - 1], tags[|tags| - 1];
      assert tags == init + [last];
      KeptTagsExact(init, t);
    }
  }

  /** Tags that went through once pass unchanged and name no host and no entity. */
  lemma {:induction false} EnrichedTagsAreStable(tags: seq<string>, defaultHostname: string, originTags: string, entityFirst: bool)
    ensures MetadataOf(KeptTags(tags), defaultHostname, originTags, entityFirst) ==
            Metadata(KeptTags(tags), defaultHostname, originTags, "")
  {
    var kept := KeptTags(tags);
    forall t | t in kept ensures !IsMetadata(t) {
      KeptTagsExact(tags, t);
    }
    KeptTagsKeepAll(kept);
    LastWithIn(kept, HOST_TAG);
    LastWithIn(kept, ENTITY_TAG);
    forall raw: string ensures HOST_TAG <= HOST_TAG + raw && ENTITY_TAG <= ENTITY_TAG + raw {
    }
  }

  lemma {:induction false} KeptTagsKeepAll(tags: seq<string>)
    requires forall t :: t in tags ==> !IsMetadata(t)
    ensures KeptTags(tags) == tags
  {
    if tags != [] {
      assert tags == tags[..|tags| - 1] + [tags[|tags| - 1]];
      KeptTagsKeepAll(tags[..|tags| - 1]);
    }
  }

  // ----- metrics -----

  function EnrichMetricType(t: PM.SampleType): MetricType {
    match t
    case Gauge => GaugeType
    case Count => CounterType
    case Distribution => DistributionType
    case Histogram => HistogramType
    case Set => SetType
    case Timing => HistogramType
  }

  /** A metric sample with the origins the tagger looks up later. */
  datatype Enriched = Enriched(sample: MetricSample, originID: string, k8sOriginID: string)

  /** The enrichment settings of a server. */
  datatype Settings = Settings(
    namespace: string,
    namespaceBlacklist: seq<string>,
    defaultHostname: string,
    entityFirst: bool,
    serverless: bool)

  ghost predicate Blacklisted(name: string, s: Settings) {
    s.namespace != "" && exists k :: 0 <= k < |s.namespaceBlacklist| && s.namespaceBlacklist[k] <= name
  }

  method IsBlacklisted(name: string, s: Settings) returns (b: bool)
    ensures b <==> Blacklisted(name, s)
  {
    if s.namespace != "" {
      for k := 0 to |s.namespaceBlacklist|
        invariant forall j :: 0 <= j < k ==> !(s.namespaceBlacklist[j] <= name)
      {
        if s.namespaceBlacklist[k] <= name {
          return true;
        }
      }
    }
    return false;
  }

  ghost function EnrichedOne(x: PM.Sample, value: Float, origin: string, s: Settings): Enriched {
    var meta := MetadataOf(x.tags, s.defaultHostname, origin, s.entityFirst);
    Enriched(
      MetricSample(
        if Blacklisted(x.name, s) then x.name else s.namespace + x.name,
        value, x.setValue, EnrichMetricType(x.sampleType), meta.tags,
        if s.serverless then "" else meta.host, x.sampleRate, 0.0),
      meta.origin, meta.k8sOrigin)
  }

  /** One sample for each value of the message. */
  ghost function EnrichedAll(x: PM.Sample, origin: string, s: Settings): seq<Enriched> {
    var values := if x.values == [] then [x.value] else x.values;
    seq(|values|, i requires 0 <= i < |values| => EnrichedOne(x, values[i], origin, s))
  }

  method EnrichMetricSample(samples: seq<Enriched>, x: PM.Sample, origin: string, s: Settings)
    returns (r: seq<Enriched>)
    ensures r == samples + EnrichedAll(x, origin, s)
  {
    var tags := new string[|x.tags|](i requires 0 <= i < |x.tags| => x.tags[i]);
    assert tags[..] == x.tags;
    var n, host, originID, k8sOriginID :=
      ExtractTagsMetadata(tags, s.defaultHostname, origin, s.entityFirst);
    var blacklisted := IsBlacklisted(x.name, s);
    var name := if blacklisted then x.name else s.namespace + x.name;
    if s.serverless {
      host := "";
    }
    var kept, mtype := tags[..n], EnrichMetricType(x.sampleType);
    assert forall v ::
        EnrichedOne(x, v, origin, s) ==
        Enriched(MetricSample(name, v, x.setValue, mtype, kept, host, x.sampleRate, 0.0), originID, k8sOriginID);
    ghost var all := EnrichedAll(x, origin, s);
    r := samples;
    if x.values != [] {
      for i := 0 to |x.values|
        invariant r == samples + all[..i]
      {
        r := r + [Enriched(MetricSample(name, x.values[i], x.setValue, mtype, kept, host, x.sampleRate, 0.0), originID, k8sOriginID)];
        assert all[..i + 1] == all[..i] + [all[i]];
      }
      assert all[..|x.values|] == all;
    } else {
      r := r + [Enriched(MetricSample(name, x.value, x.setValue, mtype, kept, host, x.sampleRate, 0.0), originID, k8sOriginID)];
      assert all == [all[0]];
    }
  }

  // ----- events -----

  /** An event whose tags and hostname are settled. */
  datatype EnrichedEvent = EnrichedEvent(event: PE.Event, originID: string, k8sOriginID: string)

  /** A hostname in the event outranks a host tag, and that outranks the default. */
  function EnrichedEventOf(e: PE.Event, origin: string, s: Settings): EnrichedEvent {
    var meta := MetadataOf(e.tags, s.defaultHostname, origin, s.entityFirst);
    EnrichedEvent(
      e.(tags := meta.tags, hostname := if e.hostname != "" then e.hostname else meta.host),
      meta.origin, meta.k8sOrigin)
  }

  method EnrichEvent(e: PE.Event, origin: string, s: Settings) returns (r: EnrichedEvent)
    ensures r == EnrichedEventOf(e, origin, s)
  {
    var tags := new string[|e.tags|](i requires 0 <= i < |e.tags| => e.tags[i]);
    assert tags[..] == e.tags;
    var n, host, originID, k8sOriginID :=
      ExtractTagsMetadata(tags, s.defaultHostname, origin, s.entityFirst);
    r := EnrichedEvent(
      e.(tags := tags[..n], hostname := if e.hostname != "" then e.hostname else host), originID, k8sOriginID);
  }

  /** A service check ready for the aggregator; how its message is parsed is not modelled. */
  datatype ServiceCheck = ServiceCheck(checkName: string, status: nat, message: string, host: string, tags: seq<string>)
}
