/** pkg/dogstatsd/server.go: from packets to batches. */
module Server {
  import opened Wrappers
  import opened Metrics
  import opened Bytes
  import opened Parse
  import opened Packets
  import opened Enrich
  import opened Batch
  import PE = ParseEvents
  import PM = ParseMetrics

  datatype MapResult = MapResult(name: string, tags: seq<string>)

  /** What a server is configured with, and the parts of it that stay uninterpreted. */
  datatype Config = Config(
    eolTermination: bool,
    histToDist: bool,
    histToDistPrefix: string,
    settings: Settings,
    extraTags: seq<string>,
    mapper: Option<string -> Option<MapResult>>,
    parseFloat: FloatParser,
    parseServiceCheck: (string, string) -> Option<ServiceCheck>)

  /** The contents of a packet and where it came from. */
  datatype Datagram = Datagram(contents: string, origin: string)

  // ----- the flat map -----

  function Mapped(c: Config, x: PM.Sample): PM.Sample {
    if c.mapper.None? then x
    else
      match c.mapper.value(x.name)
      case None => x
      case Some(result) => x.(name := result.name, tags := x.tags + result.tags)
  }

  function WithExtraTags(xs: seq<Enriched>, extraTags: seq<string>): (r: seq<Enriched>)
    ensures |r| == |xs|
  {
    seq(|xs|, i requires 0 <= i < |xs| =>
      xs[i].(sample := xs[i].sample.(tags := xs[i].sample.tags + extraTags)))
  }

  ghost function MetricSamples(c: Config, message: string, origin: string): Option<seq<Enriched>> {
    match MetricOf(message, c.parseFloat)
    case None => None
    case Some(x) => Some(WithExtraTags(EnrichedAll(Mapped(c, x), origin, c.settings), c.extraTags))
  }

  function DistributionCopy(c: Config, x: Enriched): Enriched {
    x.(sample := x.sample.(name := c.histToDistPrefix + x.sample.name, mtype := DistributionType))
  }

  /** Each histogram is followed by its distribution copy when copies are enabled. */
  function WithCopies(c: Config, xs: seq<Enriched>): seq<Enriched> {
    if xs == [] then [] else WithCopies(c, xs[..|xs| - 1]) + WithCopy(c, xs[|xs| - 1])
  }

  function WithCopy(c: Config, x: Enriched): seq<Enriched> {
    if c.histToDist && x.sample.mtype == HistogramType then [x, DistributionCopy(c, x)] else [x]
  }

  function EventWithExtraTags(e: EnrichedEvent, extraTags: seq<string>): EnrichedEvent {
    e.(event := e.event.(tags := e.event.tags + extraTags))
  }

  ghost function OutputOfMessage(c: Config, message: string, origin: string): Output {
    match FindMessageType(message)
    case ServiceCheckMessage =>
      (match c.parseServiceCheck(message, origin)
       case None => NOTHING
       case Some(check) => Output([], [], [check]))
    case EventMessage =>
      (match PE.EventOf(message)
       case Parsed(e) => Output([], [EventWithExtraTags(EnrichedEventOf(e, origin, c.settings), c.extraTags)], [])
       case _ => NOTHING)
    case MetricMessage =>
      match MetricSamples(c, message, origin)
      case None => NOTHING
      case Some(xs) => Output(WithCopies(c, xs), [], [])
  }

  ghost function OutputOfMessages(c: Config, messages: seq<string>, origin: string): Output {
    FlatMap(m => OutputOfMessage(c, m, origin), messages)
  }

  ghost function OutputOfPacket(c: Config, d: Datagram): Output {
    OutputOfMessages(c, Messages(d.contents, c.eolTermination), d.origin)
  }

  ghost function OutputOfPackets(c: Config, ds: seq<Datagram>): Output {
    FlatMap(d => OutputOfPacket(c, d), ds)
  }

  /** Parsing the message stays inside it. */
  predicate InRange(message: string) {
    FindMessageType(message) == EventMessage ==> !PE.EventOf(message).OutOfRange?
  }

  predicate AllInRange(messages: seq<string>) {
    forall m :: m in messages ==> InRange(m)
  }

  predicate PacketsInRange(c: Config, ds: seq<Datagram>) {
    ds == [] ||
    (AllInRange(Messages(ds[0].contents, c.eolTermination)) && PacketsInRange(c, ds[1..]))
  }

  // ----- messages -----

  method ParseMetricMessage(c: Config, message: string, origin: string) returns (r: Option<seq<Enriched>>)
    ensures r == MetricSamples(c, message, origin)
  {
    var parsed := ParseMetricSample(message, c.parseFloat);
    if parsed.None? {
      return None;
    }
    var sample := parsed.value;
    if c.mapper.Some? {
      var result := c.mapper.value(sample.name);
      if result.Some? {
        sample := sample.(name := result.value.name, tags := sample.tags + result.value.tags);
      }
    }
    var samples := EnrichMetricSample([], sample, origin, c.settings);
    assert samples == EnrichedAll(sample, origin, c.settings);
    TagsAreShared(sample, origin, c.settings);
    samples := AddExtraTags(samples, c.extraTags);
    r := Some(samples);
  }

  lemma TagsAreShared(x: PM.Sample, origin: string, s: Settings)
    ensures var all := EnrichedAll(x, origin, s);
            forall k :: 0 <= k < |all| ==> all[k].sample.tags == all[0].sample.tags
  {
    var values := if x.values == [] then [x.value] else x.values;
    var all := EnrichedAll(x, origin, s);
    assert forall k :: 0 <= k < |all| ==> all[k] == EnrichedOne(x, values[k], origin, s);
  }

  /** The samples of a message share their tags: the first gets the extra tags and the others its tags. */
  method AddExtraTags(enriched: seq<Enriched>, extraTags: seq<string>) returns (samples: seq<Enriched>)
    requires forall k :: 0 <= k < |enriched| ==> enriched[k].sample.tags == enriched[0].sample.tags
    ensures samples == WithExtraTags(enriched, extraTags)
  {
    samples := enriched;
    ghost var all := WithExtraTags(enriched, extraTags);
    for i := 0 to |enriched|
      invariant |samples| == |enriched|
      invariant forall k :: 0 <= k < |enriched| ==> samples[k] == if k < i then all[k] else enriched[k]
    {
      var tags := if i == 0 then samples[0].sample.tags + extraTags else samples[0].sample.tags;
      samples := samples[i := samples[i].(sample := samples[i].sample.(tags := tags))];
    }
  }

  method ParseEventMessage(c: Config, message: string, origin: string)
    returns (ok: bool, r: Option<EnrichedEvent>)
    requires |message| <= MAX_INT64
    ensures ok <==> !PE.EventOf(message).OutOfRange?
    ensures r == match PE.EventOf(message)
                 case Parsed(e) => Some(EventWithExtraTags(EnrichedEventOf(e, origin, c.settings), c.extraTags))
                 case _ => None
  {
    var parsed := PE.ParseEvent(message);
    match parsed {
      case OutOfRange => return false, None;
      case Rejected => return true, None;
      case Parsed(e) =>
        var event := EnrichEvent(e, origin, c.settings);
        return true, Some(EventWithExtraTags(event, c.extraTags));
    }
  }

  method AppendWithCopy(c: Config, batcher: Batcher, x: Enriched)
    requires batcher.Valid()
    modifies batcher, batcher.samples
    ensures batcher.Valid() && (batcher.samples == old(batcher.samples) || fresh(batcher.samples))
    ensures batcher.Pending() == old(batcher.Pending()).Plus(Output(WithCopy(c, x), [], []))
    ensures batcher.SentBefore() == old(batcher.SentBefore())
  {
    ghost var start := batcher.Pending();
    batcher.AppendSample(x);
    if c.histToDist && x.sample.mtype == HistogramType {
      var copy := DistributionCopy(c, x);
      batcher.AppendSample(copy);
      MoreSamples(start, [x], [copy]);
      assert [x] + [copy] == [x, copy];
    }
  }

  method AppendSamples(c: Config, batcher: Batcher, samples: seq<Enriched>)
    requires batcher.Valid()
    modifies batcher, batcher.samples
    ensures batcher.Valid() && (batcher.samples == old(batcher.samples) || fresh(batcher.samples))
    ensures batcher.Pending() == old(batcher.Pending()).Plus(Output(WithCopies(c, samples), [], []))
    ensures batcher.SentBefore() == old(batcher.SentBefore())
  {
    ghost var start := batcher.Pending();
    PlusNothing(start);
    for i := 0 to |samples|
      invariant batcher.Valid() && (batcher.samples == old(batcher.samples) || fresh(batcher.samples))
      invariant batcher.Pending() == start.Plus(Output(WithCopies(c, samples[..i]), [], []))
      invariant batcher.SentBefore() == old(batcher.SentBefore())
    {
      AppendWithCopy(c, batcher, samples[i]);
      OneMoreSample(c, start, samples, i);
    }
    assert samples[..|samples|] == samples;
  }

  lemma OneMoreSample(c: Config, start: Output, samples: seq<Enriched>, i: nat)
    requires i < |samples|
    ensures start.Plus(Output(WithCopies(c, samples[..i]), [], [])).Plus(Output(WithCopy(c, samples[i]), [], [])) ==
            start.Plus(Output(WithCopies(c, samples[..i + 1]), [], []))
  {
    assert samples[..i + 1][..i] == samples[..i];
    MoreSamples(start, WithCopies(c, samples[..i]), WithCopy(c, samples[i]));
  }

  lemma MoreSamples(start: Output, xs: seq<Enriched>, ys: seq<Enriched>)
    ensures start.Plus(Output(xs, [], [])).Plus(Output(ys, [], [])) == start.Plus(Output(xs + ys, [], []))
  {
    PlusAssociative(start, Output(xs, [], []), Output(ys, [], []));
  }

  method HandleMessage(c: Config, batcher: Batcher, message: string, origin: string) returns (ok: bool)
    requires batcher.Valid() && |message| <= MAX_INT64
    modifies batcher, batcher.samples
    ensures batcher.Valid() && (batcher.samples == old(batcher.samples) || fresh(batcher.samples))
    ensures ok <==> InRange(message)
    ensures ok ==> batcher.Pending() == old(batcher.Pending()).Plus(OutputOfMessage(c, message, origin))
    ensures batcher.SentBefore() == old(batcher.SentBefore())
  {
    PlusNothing(batcher.Pending());
    match FindMessageType(message) {
      case ServiceCheckMessage =>
        var check := c.parseServiceCheck(message, origin);
        if check.Some? {
          batcher.AppendServiceCheck(check.value);
        }
      case EventMessage =>
        var inRange, event := ParseEventMessage(c, message, origin);
        if !inRange {
          return false;
        }
        if event.Some? {
          batcher.AppendEvent(event.value);
        }
      case MetricMessage =>
        var samples := ParseMetricMessage(c, message, origin);
        if samples.Some? {
          AppendSamples(c, batcher, samples.value);
        }
    }
    ok := true;
  }

  // ----- packets -----

  /** One step of a packet: false in `more` when it holds no further message. */
  method ParseNext(c: Config, batcher: Batcher, packet: Packet) returns (more: bool, ok: bool)
    requires batcher.Valid() && |packet.contents| <= MAX_INT64
    modifies batcher, batcher.samples, packet
    ensures batcher.Valid() && (batcher.samples == old(batcher.samples) || fresh(batcher.samples))
    ensures batcher.SentBefore() == old(batcher.SentBefore())
    ensures |packet.contents| <= |old(packet.contents)|
    ensures more ==> |packet.contents| < |old(packet.contents)|
    ensures !more ==> Messages(old(packet.contents), c.eolTermination) == [] && ok
    ensures !more ==> batcher.Pending() == old(batcher.Pending())
    ensures AllInRange(Messages(old(packet.contents), c.eolTermination)) <==>
            ok && (more ==> AllInRange(Messages(packet.contents, c.eolTermination)))
    ensures ok && more ==>
              batcher.Pending().Plus(OutputOfMessages(c, Messages(packet.contents, c.eolTermination), packet.origin)) ==
              old(batcher.Pending()).Plus(
                OutputOfMessages(c, Messages(old(packet.contents), c.eolTermination), packet.origin))
  {
    ghost var rest := Messages(packet.contents, c.eolTermination);
    var message := packet.NextMessage(c.eolTermination);
    if message.None? {
      return false, true;
    }
    ghost var after := Messages(packet.contents, c.eolTermination);
    if message.value == "" {
      assert rest == after;
      return true, true;
    }
    FirstOfMessages(c, batcher.Pending(), message.value, after, packet.origin);
    ok := HandleMessage(c, batcher, message.value, packet.origin);
    more := true;
  }

  method ParsePacket(c: Config, batcher: Batcher, packet: Packet) returns (ok: bool)
    requires batcher.Valid() && |packet.contents| <= MAX_INT64
    modifies batcher, batcher.samples, packet
    ensures batcher.Valid() && (batcher.samples == old(batcher.samples) || fresh(batcher.samples))
    ensures ok <==> AllInRange(Messages(old(packet.contents), c.eolTermination))
    ensures ok ==>
              batcher.Pending() ==
              old(batcher.Pending()).Plus(OutputOfPacket(c, Datagram(old(packet.contents), packet.origin)))
    ensures batcher.SentBefore() == old(batcher.SentBefore())
  {
    ghost var all := Messages(packet.contents, c.eolTermination);
    ghost var total := batcher.Pending().Plus(OutputOfMessages(c, all, packet.origin));
    var more := true;
    ok := true;
    while more
      invariant batcher.Valid() && (batcher.samples == old(batcher.samples) || fresh(batcher.samples))
      invariant |packet.contents| <= |old(packet.contents)| && ok
      invariant AllInRange(all) <==> more ==> AllInRange(Messages(packet.contents, c.eolTermination))
      invariant more ==>
          batcher.Pending().Plus(
            OutputOfMessages(c, Messages(packet.contents, c.eolTermination), packet.origin)) == total
      invariant !more ==> batcher.Pending() == total
      invariant batcher.SentBefore() == old(batcher.SentBefore())
      decreases more, |packet.contents|
    {
      PlusNothing(batcher.Pending());
      more, ok := ParseNext(c, batcher, packet);
      if !ok {
        return;
      }
    }
  }

  lemma FirstOfMessages(c: Config, held: Output, message: string, more: seq<string>, origin: string)
    ensures AllInRange([message] + more) <==> InRange(message) && AllInRange(more)
    ensures held.Plus(OutputOfMessages(c, [message] + more, origin)) ==
            held.Plus(OutputOfMessage(c, message, origin)).Plus(OutputOfMessages(c, more, origin))
  {
    FlatMapFirst(m => OutputOfMessage(c, m, origin), held, message, more);
  }

  ghost function DatagramsOf(packets: seq<Packet>): (ds: seq<Datagram>)
    reads packets
    ensures |ds| == |packets|
  {
    seq(|packets|, i requires 0 <= i < |packets| reads packets => Datagram(packets[i].contents, packets[i].origin))
  }

  /** One packet of the list; the later ones keep their contents. */
  method ParseNth(c: Config, batcher: Batcher, packets: seq<Packet>, i: nat, ghost ds: seq<Datagram>) returns (ok: bool)
    requires batcher.Valid() && i < |packets| == |ds| && |ds[i].contents| <= MAX_INT64
    requires forall j, k :: 0 <= j < k < |packets| ==> packets[j] != packets[k]
    requires ds[i].origin == packets[i].origin
    requires forall k :: i <= k < |packets| ==> packets[k].contents == ds[k].contents
    modifies batcher, batcher.samples, packets
    ensures batcher.Valid() && (batcher.samples == old(batcher.samples) || fresh(batcher.samples))
    ensures ok <==> AllInRange(Messages(ds[i].contents, c.eolTermination))
    ensures ok ==> batcher.Pending() == old(batcher.Pending()).Plus(OutputOfPacket(c, ds[i]))
    ensures batcher.SentBefore() == old(batcher.SentBefore())
    ensures forall k :: i < k < |packets| ==> packets[k].contents == ds[k].contents
  {
    ok := ParsePacket(c, batcher, packets[i]);
  }

  method ParseEach(c: Config, batcher: Batcher, packets: seq<Packet>) returns (ok: bool)
    requires batcher.Valid()
    requires forall i, j :: 0 <= i < j < |packets| ==> packets[i] != packets[j]
    requires forall i :: 0 <= i < |packets| ==> |packets[i].contents| <= MAX_INT64
    modifies batcher, batcher.samples, packets
    ensures batcher.Valid() && batcher.SentBefore() == old(batcher.SentBefore())
    ensures ok <==> PacketsInRange(c, old(DatagramsOf(packets)))
    ensures ok ==>
              batcher.Pending() == old(batcher.Pending()).Plus(OutputOfPackets(c, old(DatagramsOf(packets))))
  {
    ghost var ds := DatagramsOf(packets);
    ghost var total := batcher.Pending().Plus(OutputOfPackets(c, ds));
    for i := 0 to |packets|
      invariant batcher.Valid() && (batcher.samples == old(batcher.samples) || fresh(batcher.samples))
      invariant forall k :: i <= k < |packets| ==> packets[k].contents == ds[k].contents
      invariant PacketsInRange(c, ds) <==> PacketsInRange(c, ds[i..])
      invariant batcher.Pending().Plus(OutputOfPackets(c, ds[i..])) == total
      invariant batcher.SentBefore() == old(batcher.SentBefore())
    {
      FirstOfPackets(c, batcher.Pending(), ds, i);
      ok := ParseNth(c, batcher, packets, i, ds);
      if !ok {
        return;
      }
    }
    PlusNothing(batcher.Pending());
    ok := true;
  }

  /**
   * Everything the packets hold is sent, in order: what the batcher held before, then the flat map over packets and
   * messages. The only other outcome is that some event message makes its parser leave the message.
   */
  method ParsePackets(c: Config, batcher: Batcher, packets: seq<Packet>) returns (ok: bool)
    requires batcher.Valid()
    requires forall i, j :: 0 <= i < j < |packets| ==> packets[i] != packets[j]
    requires forall i :: 0 <= i < |packets| ==> |packets[i].contents| <= MAX_INT64
    modifies batcher, batcher.samples, packets
    ensures batcher.Valid()
    ensures ok <==> PacketsInRange(c, old(DatagramsOf(packets)))
    ensures ok ==> batcher.Pending() == NOTHING
    ensures ok ==>
              Delivered(
                batcher.SentBefore(), old(batcher.SentBefore()),
                old(batcher.Pending()).Plus(OutputOfPackets(c, old(DatagramsOf(packets)))), batcher.batchSize)
  {
    ok := ParseEach(c, batcher, packets);
    if ok {
      batcher.Flush();
    }
  }

  lemma FirstOfPackets(c: Config, held: Output, ds: seq<Datagram>, i: nat)
    requires i < |ds|
    ensures PacketsInRange(c, ds[i..]) <==>
            AllInRange(Messages(ds[i].contents, c.eolTermination)) && PacketsInRange(c, ds[i + 1..])
    ensures held.Plus(OutputOfPackets(c, ds[i..])) ==
            held.Plus(OutputOfPacket(c, ds[i])).Plus(OutputOfPackets(c, ds[i + 1..]))
  {
    assert ds[i..] == [ds[i]] + ds[i + 1..];
    FlatMapFirst(d => OutputOfPacket(c, d), held, ds[i], ds[i + 1..]);
  }
}
