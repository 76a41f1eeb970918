/** What the dogstatsd pipeline delivers, end to end: from written messages to the aggregator's channels. */
module Delivery {
  import opened Metrics
  import opened Bytes
  import opened Parse
  import opened Packets
  import opened Enrich
  import opened Batch
  import opened Server
  import PM = ParseMetrics
  import PE = ParseEvents
  import MF = MetricFormat
  import EF = EventFormat

  // ----- packet boundaries do not matter -----

  /** Packets may arrive in one list or in several. */
  lemma PacketsConcat(c: Config, a: seq<Datagram>, b: seq<Datagram>)
    ensures OutputOfPackets(c, a + b) == OutputOfPackets(c, a).Plus(OutputOfPackets(c, b))
  {
    FlatMapConcat(d => OutputOfPacket(c, d), a, b);
  }

  /** Cutting a packet in two after any newline changes nothing that is delivered. */
  lemma CutPacket(c: Config, a: string, b: string, origin: string)
    ensures OutputOfPacket(c, Datagram(a + "\n" + b, origin)) ==
            OutputOfPacket(c, Datagram(a + "\n", origin)).Plus(OutputOfPacket(c, Datagram(b, origin)))
  {
    CutAtNewline(a, b, c.eolTermination);
    FlatMapConcat(
      m => OutputOfMessage(c, m, origin), Messages(a + "\n", c.eolTermination), Messages(b, c.eolTermination));
  }

  /** A packet of newline-terminated messages delivers each of them once, in order. */
  lemma WholePacket(c: Config, messages: seq<string>, origin: string)
    requires forall k :: 0 <= k < |messages| ==> IsLine(messages[k])
    ensures OutputOfPacket(c, Datagram(Terminated(messages), origin)) == OutputOfMessages(c, messages, origin)
  {
    AllTerminated(messages, c.eolTermination);
  }

  // ----- written metrics -----

  lemma MetricStart(s: PM.Sample, fields: seq<MF.Field>, format: MF.FloatFormat)
    ensures MF.PrintMetric(s, fields, format) ==
            s.name + ":" + MF.PrintRawValue(s, format) + "|" +
            Join([PM.Symbol(s.sampleType)] + MF.PrintFields(fields, format), '|')
  {
    var first, more :=
      s.name + ":" + MF.PrintRawValue(s, format), [PM.Symbol(s.sampleType)] + MF.PrintFields(fields, format);
    var parts := [first, PM.Symbol(s.sampleType)] + MF.PrintFields(fields, format);
    assert parts[0] == first && parts[1..] == more;
  }

  /** A written metric is taken for one exactly when its name does not start like another kind of message. */
  lemma MetricDispatchIff(s: PM.Sample, fields: seq<MF.Field>, format: MF.FloatFormat)
    ensures FindMessageType(MF.PrintMetric(s, fields, format)) == MetricMessage <==>
            !("_e{" <= s.name) && !("_sc" <= s.name)
  {
    MetricStart(s, fields, format);
    StartsLike(s.name, MF.PrintRawValue(s, format) + "|" +
                       Join([PM.Symbol(s.sampleType)] + MF.PrintFields(fields, format), '|'),
               "_e{");
    StartsLike(s.name, MF.PrintRawValue(s, format) + "|" +
                       Join([PM.Symbol(s.sampleType)] + MF.PrintFields(fields, format), '|'),
               "_sc");
    var message := MF.PrintMetric(s, fields, format);
    assert message == s.name + ":" + (MF.PrintRawValue(s, format) + "|" +
                      Join([PM.Symbol(s.sampleType)] + MF.PrintFields(fields, format), '|'));
  }

  /** A concrete case: a metric named _sc is taken for a service check. */
  lemma NameTakenForServiceCheck(s: PM.Sample, fields: seq<MF.Field>, format: MF.FloatFormat)
    requires s.name == "_sc"
    ensures FindMessageType(MF.PrintMetric(s, fields, format)) == ServiceCheckMessage
  {
    MetricStart(s, fields, format);
    var message := MF.PrintMetric(s, fields, format);
    assert message[..3] == "_sc" && message[1] == 's';
  }

  /** A written metric is one line exactly when its name, its value and its fields are. */
  lemma MetricIsOneLineIff(s: PM.Sample, fields: seq<MF.Field>, format: MF.FloatFormat)
    ensures '\n' !in MF.PrintMetric(s, fields, format) <==>
            && '\n' !in s.name && '\n' !in MF.PrintRawValue(s, format)
            && forall k :: 0 <= k < |fields| ==> '\n' !in MF.PrintField(fields[k], format)
  {
    var first, printed := s.name + ":" + MF.PrintRawValue(s, format), MF.PrintFields(fields, format);
    JoinHasIff([first, PM.Symbol(s.sampleType)] + printed, '|', '\n');
    SomePartHas(first, PM.Symbol(s.sampleType), printed, '\n');
    assert forall k :: 0 <= k < |fields| ==> printed[k] == MF.PrintField(fields[k], format);
  }

  lemma SomePartHas(first: string, second: string, more: seq<string>, c: char)
    requires c !in second
    ensures (exists p :: p in [first, second] + more && c in p) <==> c in first || exists k :: 0 <= k < |more| && c in more[k]
  {
    var parts := [first, second] + more;
    assert parts[0] == first && forall k :: 0 <= k < |more| ==> parts[k + 2] == more[k];
    if p :| p in parts && c in p {
      var i :| 0 <= i < |parts| && parts[i] == p;
      assert i >= 2 ==> p == more[i - 2];
    }
  }

  lemma StartsLike(name: string, more: string, prefix: string)
    requires |prefix| == 3 && ':' !in prefix
    ensures prefix <= name + ":" + more <==> prefix <= name
  {
    var s := name + ":" + more;
    if prefix <= s {
      assert forall k :: 0 <= k < 3 ==> prefix[k] == s[k] && prefix[k] in prefix;
      assert s[|name|] == ':';
    }
  }

  /** A written metric is delivered with its mapping, its enrichment and its copies, whatever the order of its fields. */
  lemma MetricDelivered(c: Config, s: PM.Sample, fields: seq<MF.Field>, format: MF.FloatFormat, origin: string)
    requires MF.Printable(s) && MF.ValuesRead(s, format, c.parseFloat)
    requires MF.Describe(fields, s) && |fields| <= 2
    requires !("_e{" <= s.name) && !("_sc" <= s.name)
    ensures OutputOfMessage(c, MF.PrintMetric(s, fields, format), origin) ==
            Output(
              WithCopies(c, WithExtraTags(EnrichedAll(Mapped(c, s), origin, c.settings), c.extraTags)), [], [])
  {
    MetricDispatchIff(s, fields, format);
    MF.MetricRoundTrip(s, fields, format, c.parseFloat);
  }

  // ----- written events -----

  /** Newlines in the title and the text never cut a written event in two. */
  lemma EventIsOneLineIff(title: string, text: string, fields: seq<EF.Field>)
    ensures '\n' !in EF.PrintEvent(title, text, fields) <==> '\n' !in EF.PrintTail(fields)
  {
    EF.EscapeHasNoNewline(title, ' ');
    EF.EscapeHasNoNewline(text, ' ');
    HeaderIsOneLine(|EF.Escape(title)|, |EF.Escape(text)|);
    LastPartDecides(EF.PrintHeader(PE.Header(|EF.Escape(title)|, |EF.Escape(text)|)), EF.Escape(title), EF.Escape(text), EF.PrintTail(fields));
  }

  lemma HeaderIsOneLine(titleLength: nat, textLength: nat)
    ensures '\n' !in EF.PrintHeader(PE.Header(titleLength, textLength))
  {
    FormatIntFree(titleLength, '\n');
    FormatIntFree(textLength, '\n');
  }

  lemma LastPartDecides(header: string, title: string, text: string, tail: string)
    requires '\n' !in header && '\n' !in title && '\n' !in text
    ensures '\n' in header + ":" + (title + "|" + text + tail) <==> '\n' in tail
  {}

  /** A written event without backslash-n pairs is delivered as it was, enriched. */
  lemma EventDelivered(c: Config, e: PE.Event, fields: seq<EF.Field>, origin: string)
    requires e.title != "" && EF.Describe(fields, e) && EF.NoPair(e.title) && EF.NoPair(e.text)
    requires |EF.Escape(e.title)| + 1 + |EF.Escape(e.text)| <= MAX_INT64
    ensures var message := EF.PrintEvent(e.title, e.text, fields);
            InRange(message) &&
            OutputOfMessage(c, message, origin) ==
            Output([], [EventWithExtraTags(EnrichedEventOf(e, origin, c.settings), c.extraTags)], [])
  {
    EF.EventRoundTripIff(e, fields);
    var message := EF.PrintEvent(e.title, e.text, fields);
    assert "_e{" <= message;
  }

  // ----- a packet of written messages -----

  datatype Written =
    | Metric(sample: PM.Sample, metricFields: seq<MF.Field>)
    | Event(event: PE.Event, eventFields: seq<EF.Field>)

  function Print(w: Written, format: MF.FloatFormat): string {
    match w
    case Metric(s, fields) => MF.PrintMetric(s, fields, format)
    case Event(e, fields) => EF.PrintEvent(e.title, e.text, fields)
  }

  function PrintAll(ws: seq<Written>, format: MF.FloatFormat): (r: seq<string>)
    ensures |r| == |ws|
  {
    seq(|ws|, i requires 0 <= i < |ws| => Print(ws[i], format))
  }

  /** One line that says all there is to say. */
  ghost predicate Deliverable(c: Config, w: Written, format: MF.FloatFormat) {
    IsLine(Print(w, format)) &&
    match w
    case Metric(s, fields) =>
      && MF.Printable(s) && MF.ValuesRead(s, format, c.parseFloat) && MF.Describe(fields, s) && |fields| <= 2
      && !("_e{" <= s.name) && !("_sc" <= s.name)
    case Event(e, fields) =>
      && e.title != "" && EF.Describe(fields, e) && EF.NoPair(e.title) && EF.NoPair(e.text)
      && |EF.Escape(e.title)| + 1 + |EF.Escape(e.text)| <= MAX_INT64
  }

  /** What a message should become: itself, enriched. */
  ghost function Expected(c: Config, w: Written, origin: string): Output {
    match w
    case Metric(s, _) =>
      Output(WithCopies(c, WithExtraTags(EnrichedAll(Mapped(c, s), origin, c.settings), c.extraTags)), [], [])
    case Event(e, _) => Output([], [EventWithExtraTags(EnrichedEventOf(e, origin, c.settings), c.extraTags)], [])
  }

  lemma WrittenDelivered(c: Config, w: Written, format: MF.FloatFormat, origin: string)
    requires Deliverable(c, w, format)
    ensures OutputOfMessage(c, Print(w, format), origin) == Expected(c, w, origin) && InRange(Print(w, format))
  {
    match w
    case Metric(s, fields) =>
      MetricDelivered(c, s, fields, format, origin);
      MetricDispatchIff(s, fields, format);
    case Event(e, fields) => EventDelivered(c, e, fields, origin);
  }

  /** A packet of written metrics and events delivers exactly their enriched forms, in order, and nothing else. */
  lemma PacketDelivered(c: Config, ws: seq<Written>, format: MF.FloatFormat, origin: string)
    requires forall k :: 0 <= k < |ws| ==> Deliverable(c, ws[k], format)
    ensures OutputOfPacket(c, Datagram(Terminated(PrintAll(ws, format)), origin)) == FlatMap(w => Expected(c, w, origin), ws)
    ensures AllInRange(Messages(Terminated(PrintAll(ws, format)), c.eolTermination))
  {
    var messages := PrintAll(ws, format);
    WholePacket(c, messages, origin);
    AllTerminated(messages, c.eolTermination);
    forall k | 0 <= k < |ws|
      ensures OutputOfMessage(c, messages[k], origin) == Expected(c, ws[k], origin) && InRange(messages[k])
    {
      WrittenDelivered(c, ws[k], format, origin);
    }
    FlatMapSame(m => OutputOfMessage(c, m, origin), messages, w => Expected(c, w, origin), ws);
  }

  // ----- distribution copies -----

  function OfType(xs: seq<Enriched>, t: MetricType): nat {
    if xs == [] then 0
    else OfType(xs[..|xs| - 1], t) + if xs[|xs| - 1].sample.mtype == t then 1 else 0
  }

  lemma {:induction false} OfTypeConcat(a: seq<Enriched>, b: seq<Enriched>, t: MetricType)
    ensures OfType(a + b, t) == OfType(a, t) + OfType(b, t)
  {
    if b == [] {
      assert a + b == a;
    } else {
      assert (a + b)[..|a + b| - 1] == a + b[..|b| - 1];
      OfTypeConcat(a, b[..|b| - 1], t);
    }
  }

  /** Copies add one distribution for each histogram when enabled, and change no other count. */
  lemma {:induction false} CopiesCounted(c: Config, xs: seq<Enriched>, t: MetricType)
    ensures OfType(WithCopies(c, xs), t) ==
            OfType(xs, t) + if c.histToDist && t == DistributionType then OfType(xs, HistogramType) else 0
  {
    if xs != [] {
      var init, last := xs[..|xs| - 1], xs[|xs| - 1];
      CopiesCounted(c, init, t);
      OfTypeConcat(WithCopies(c, init), WithCopy(c, last), t);
      OfTypeOne(last, t);
      if c.histToDist && last.sample.mtype == HistogramType {
        var copy := DistributionCopy(c, last);
        OfTypeConcat([last], [copy], t);
        OfTypeOne(copy, t);
        assert [last] + [copy] == WithCopy(c, last);
      }
    }
  }

  lemma OfTypeOne(x: Enriched, t: MetricType)
    ensures OfType([x], t) == if x.sample.mtype == t then 1 else 0
  {
    assert [x][..0] == [];
  }
}
