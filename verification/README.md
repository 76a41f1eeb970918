# Datadog Agent: verified model of its stateful cores and of the dogstatsd wire protocol

A Dafny model of the parts of the Datadog Agent whose guarantees span many calls: time-bucketed
aggregation, the dogstatsd parser and packet pipeline, autodiscovery and check scheduling, the
forwarder's backoff, and two worklist closures. `dafny verify dfyconfig.toml` checks everything.

The project has one module per source file. Where the source updates objects in place there is a class
with the same fields, and each of its methods is proved equal to a step of a pure state machine
(`SamplerState`, `CheckSamplerRuns`, `AutoConfigRuns`, `ProviderRuns`, `CheckRuns`, `TemplateCache.State`, …); what must
hold over time is then proved about every run of that state machine. Each handler is one atomic step, time is
a parameter, a channel is the sequence of what was sent, and Go's map iteration is an arbitrary choice
(`Wrappers.Pick`), so every result holds for every iteration order. What a step or a parser computes is also said about
its inputs alone: `SamplerValues` and `CheckSamplerValues` about the samples of a run, `MetricReading`, `EventFields` and
`WireSamples` about the bytes of a message, `Announcing` about what the schedulers are told, `CheckStarts` about the checks
that loaders give. Hashes, float parsing, template
resolution, decryption, the metric mapper and the service-check parser are arbitrary functions.

## What the code promises and where it does not keep it

Each of these is stated as an exact condition over all inputs or all runs; in parentheses after it, a case of the failing side.

- **Zero points for idle counters** are emitted for contexts the resolver may already have forgotten. None is ever
  lost exactly when `dogstatsd_expiry_seconds + interval <= 300` (`ZeroPointsTrackedIff`); with the shipped 300 s expiry
  and 10 s buckets one can be lost (`DefaultSettingsLoseZero`), but that takes flushes far apart. With one clock for samples
  and flushes, and flushes at most a gap apart, none is lost exactly when that holds, or the gap is 0, or the gap rounded up
  to buckets plus a bucket plus the gap is at most 300 s rounded down to buckets (`PromptFlushesIff`; `Misses`). With the
  shipped settings that is a gap of at most 140 s (`ShippedFlushesIff`); flushes are 15 s apart by default.
- **Pending contexts** stay tracked exactly when a bucket is no longer than the 300 s expiry (`PendingTrackedIff`;
  `LongBucketLosesContext`).
- **Backoff**: the error count stays in range, and a success never raises it, exactly when twice the maximum is at least the
  base (`InRangeIff`, `SuccessNeverRaisesIff`; `SuccessCanRaise` with `recovery_reset`, `SuccessCanRaiseAfterFailure`
  without). More errors never mean a shorter wait exactly when the factor is 2, or `4 * base > max` (`NeverShorterIff`;
  `ShorterWaitExample`).
- **Events**: a printed event is read back exactly when neither title nor text holds a literal backslash-n pair
  (`EventRoundTripIff`; `PairBecomesNewline`). The parser indexes outside the message exactly when the two lengths of the
  header do not fit in 64 bits together (`OutOfRangeIff`; `HugeTitleOutOfRange`); the 64-bit sums are modelled with their
  wrap-around. The slice of the title is checked here against the length rather than the capacity, which changes nothing:
  the next slice ends at a negative index in the same cases.
- **Monotonic histogram buckets**: the total inserted is the last raw value exactly when no bucket comes after a flush has
  forgotten its context; otherwise the next raw value is counted in full again (`Telescope`, `LastValueTotalIff`).
- **Template cache**: deleting keeps the index right exactly when the identifiers given cover the stored ones
  (`DeletedKeepsIff`). The digest tells two lists of identifiers apart exactly when their names spell different strings
  (`DigestSeparatesIff`), so two different templates can share it and leave a stale entry (`ClashLeavesStaleEntry`). At a stale
  entry a service is given the empty template; what came from templates is gone with the last cached template exactly when
  no service resolves that (`NoTemplateNoneLoadedIff`; `StaleLoads`, `CutLoadsEmpty`).
- **Removing configurations.** `decryptConfig` writes init_config, metrics and logs to a copy, but the instances into an array
  that the poller's list shares; the model keeps that array (`ConfigPoller.Held`). What is loaded without a template is held by
  some poller in every run exactly when neither JMX metrics nor decrypting init_config and logs changes a digest
  (`StaticRemovedIff`; `InitSecretStaysLoaded`). A cached template is held by some poller exactly when JMX metrics change no
  digest and no provider returns a template and another configuration under one digest (`TemplateRemovedIff`;
  `MetricsTemplateStaysLoaded`, `KindSwapped`). Nothing is left once no poller holds anything exactly when, besides, no service
  resolves the empty template of a stale entry (`NothingLeftIff`; `StaleServed`).
- **Holding configurations.** The other inclusions fail as soon as a digest has two holders, since nothing counts them
  (`SecondHolderLeftOut`), or when a configuration is taken for one that is held and loads something else or nothing
  (`UnreadableInstanceHidesNext`). The decryptable configurations that a provider returned last are loaded in every run exactly
  when each is taken only for those that load the same; one that can be taken for a held one is loaded under its own digest,
  unless its provider holds nothing under the digest it is loaded under; no other provider holds that digest; and no template
  resolves to it (`ReturnedLoadedIff`). The templates that a poller holds are themselves cached exactly when JMX metrics change
  no digest, no other template has the same one, and none is returned under the digest another configuration of the provider is
  held under (`CachedAllIff`).
- **Replaying** a poller's diffs gives the provider's configurations exactly when decrypting the instances changes no digest
  (`ReplayIsCurrentIff`); otherwise an unchanged configuration is reported as removed and new at every poll
  (`InstanceSecretIsReportedAgain`).
- **Removal by digest**: everything listed under a service and a template stays loaded in every run exactly when templates
  that resolve to one digest do so for one entity and, where one may be removed, under one template digest, and no
  configuration that may be removed has that digest (`OwedLoadedIff`; `SharedDigestUnloaded`, `TagsFlagShared`).
- **Collector**: `checkInstances` is never lowered, so it equals the number of running checks exactly while no stop has
  succeeded (`InstancesIff`; `StoppedStillCounted`).
- **CI job closure**: the worklist ends for every order of `pop` exactly when no requested job leads into a cycle
  of `needs` and `extends` (`EndsIff`; `SelfReferenceNeverEnds`).
- **Metrics**: a printed metric is taken for another kind of message exactly when its name starts with `_e{` or `_sc`
  (`MetricDispatchIff`; `NameTakenForServiceCheck`).

In `nextField` an empty remainder is not the nil one: a message that ends with `|` has one more, empty field. The model
keeps the two apart (`Option<string>`), as the code does.

## Model

| member | source | states |
|---|---|---|
| SamplerRuns.Conservation | pkg/aggregator/time_sampler.go:58-83 | over every run, for each bucket and context, the samples accepted are those taken by flushes followed by those still pending, for metrics and sketches alike |
| SamplerRuns.ClosedBucketsTaken | pkg/aggregator/time_sampler.go:99-161 | right after a flush everything accepted so far for a closed bucket has been emitted, without any assumption on the order of times |
| SamplerRuns.SameBoundary | pkg/aggregator/time_sampler.go:49-56 | on every reachable state the series test `start + interval <= cutoff` and the sketch test `start < cutoff` close the same buckets |
| SamplerRuns.FlushWindow | pkg/aggregator/time_sampler.go:99-161 | every bucket a flush emits, recreated ones included, starts below its cutoff and at or above the previous one |
| SamplerRuns.EmittedOnce | pkg/aggregator/time_sampler.go:180-193 | no bucket is emitted by two flushes of an ordered run, neither as series nor as sketches |
| SamplerRuns.OnlyFlushOf | pkg/aggregator/time_sampler.go:99-178 | the flush that closes a bucket finds in it everything the whole run ever accepts for it |
| SamplerRuns.CompleteBuckets | pkg/aggregator/time_sampler.go:99-178 | what a flush emits for a bucket is exactly all samples the run accepts for it, plus a zero sample for each live counter |
| SamplerExpiry.PendingTrackedIff | pkg/aggregator/time_sampler.go:180-193 | pending contexts stay tracked over all runs with ordered samples, if and only if the interval is at most the context expiry |
| SamplerExpiry.LongBucketLosesContext | pkg/aggregator/time_sampler.go:187-190 | for every longer interval, a run that forgets the context of a pending sample |
| SamplerExpiry.ZeroPointsTrackedIff | pkg/aggregator/time_sampler.go:208-237 | no zero point belongs to a forgotten context over all ordered runs, if and only if expiry plus interval is at most the context expiry |
| SamplerExpiry.DefaultSettingsLoseZero | pkg/aggregator/time_sampler.go:208-237 | with the default settings an ordered run loses a zero point |
| SamplerClock.PromptFlushesIff | pkg/aggregator/time_sampler.go:85-237 | for any interval and expiry, one clock for samples and flushes, and a hash that tells some two contexts apart: no run with flushes at most a gap apart loses a zero point, if and only if expiry plus interval is at most 300 seconds, or the gap is not positive, or the gap rounded up to buckets plus a bucket plus the gap is at most 300 seconds rounded down to buckets |
| SamplerClock.ShippedFlushesIff | pkg/aggregator/time_sampler.go:85-237 | with the shipped settings that is: if and only if flushes are at most 140 seconds apart |
| SamplerExpiry.FlushesCompleteIff | pkg/aggregator/time_sampler.go:85-97 | no flush of any ordered run drops a serie or reads a missing context, if and only if neither the interval nor expiry plus interval exceeds 300 seconds |
| SamplerValues.SamplesUnaltered | pkg/aggregator/time_sampler.go:58-83 | over every run, what was emitted for a bucket and a context and what is still pending are, in order, the very samples that came for them: values, raw values, types, rates, names, tags, hosts and times; a sketch receives their values and rates |
| SamplerValues.FlushedBuckets | pkg/aggregator/time_sampler.go:99-125 | after any run a flush emits the buckets that a sample has opened and that end no later than its own begins; with none open, the one before its own if an interval has passed since the last cutoff |
| SamplerValues.CountersAre | pkg/aggregator/time_sampler.go:73-119 | over every run the remembered counters are those whose last sample plus the expiry is above every bucket emitted since, with the time of that sample |
| SamplerValues.FlushedValues | pkg/aggregator/time_sampler.go:99-125 | in a bucket a flush of an ordered run emits, as they came, all samples the whole run ever brings for it, then a zero sample exactly for a counter alive in the bucket |
| SamplerValues.ContextIsFirst | pkg/aggregator/context_resolver.go:47-68 | over every run a tracked context has the name, tags and host of the sample it has been tracked from |
| SamplerValues.FlushForgets | pkg/aggregator/time_sampler.go:187-190 | a flush forgets exactly the contexts last seen, by a sample or a zero, more than 300 seconds before |
| TimeSampler.TimeSampler.constructor | pkg/aggregator/time_sampler.go:36-47 | starts in the initial state, with the default bucket size for interval 0 |
| TimeSampler.TimeSampler.AddSample | pkg/aggregator/time_sampler.go:58-83 | all four maps change together as one step of the state machine |
| TimeSampler.TimeSampler.CountersSampleZeroValue | pkg/aggregator/time_sampler.go:208-237 | in any iteration order: live counters get a zero and a later last-seen time, the others are marked for deletion |
| TimeSampler.TimeSampler.FlushSeries | pkg/aggregator/time_sampler.go:99-161 | in any iteration order: the emitted points are those of the closed buckets, merged one serie per signature, and the state is the specified one |
| TimeSampler.TimeSampler.FlushSketches | pkg/aggregator/time_sampler.go:163-178 | removes and returns exactly the sketches before the cutoff, grouped by context; an error exactly when some context is missing |
| TimeSampler.TimeSampler.Flush | pkg/aggregator/time_sampler.go:180-193 | output and new state of a whole flush, and exactly when it reads a missing context |
| TimeSampler.PointWindow | pkg/aggregator/time_sampler.go:99-178 | over ordered runs after the epoch every point a flush emits, of a serie or a sketch, zero points and points with the time of a sample included, has a time below its cutoff and at or above the previous one |
| TimeSampler.PointsAdvance | pkg/aggregator/time_sampler.go:85-193 | so two flushes never emit points with one time: those of the later flush are all later |
| TimeSampler.ReportsEverything | pkg/aggregator/time_sampler.go:85-161 | on ordered runs with room before the expiry every flushed point is in the serie of its signature and no sketch is unlabelled |
| Series.MergeSeries | pkg/aggregator/time_sampler.go:127-158 | one serie per signature of a tracked context, with all its points in order and nothing else |
| Series.FlushContextMetrics | pkg/aggregator/time_sampler.go:195-206 | the raw points of a bucket are those of each of its contexts, in any order of contexts, at the time of the bucket or at the time the metric gives |
| Series.LabelSketches | pkg/aggregator/time_sampler.go:85-97 | one sketch series per context with its name, tags and host; an error exactly when a context is missing |
| Series.SerieSays | pkg/aggregator/time_sampler.go:127-158 | each serie bears the name of its context with the suffix, its tags and host, and its points are exactly the values and times that the metrics of that context gave under its type and suffix |
| Series.SerieOf | pkg/aggregator/time_sampler.go:127-158 | no point that a metric of a tracked context gave is without a serie |
| Series.SketchSeriesSays | pkg/aggregator/time_sampler.go:85-97 | each sketch series bears the name, tags and host of its context and holds its non-empty sketches |
| ContextResolver.Resolver.TrackContext | pkg/aggregator/context_resolver.go:47-68 | both maps gain the key; a known context keeps its first name, tags and host |
| ContextResolver.Resolver.UpdateTrackedContext | pkg/aggregator/context_resolver.go:70-80 | last-seen times only move forward, and only for tracked keys |
| ContextResolver.Resolver.ExpireContexts | pkg/aggregator/context_resolver.go:82-99 | removes and returns exactly the keys last seen before the limit |
| SketchMap.Map.GetOrCreate | pkg/aggregator/sketch_map.go:51-69 | the sketch of a bucket and context, created empty in a new or existing bucket |
| SketchMap.Map.InsertInterp | pkg/aggregator/sketch_map.go:38-49 | inserts exactly when both bounds are finite, and leaves every other sketch alone |
| SketchMap.Map.FlushBefore | pkg/aggregator/sketch_map.go:71-86 | removes exactly the buckets before the limit and lists each of their sketches once |
| CheckSamplerRuns.SameKeys | pkg/aggregator/check_sampler.go:67-120 | over every run the two bucket maps have the same keys |
| CheckSamplerRuns.InsertedByIsGrowth | pkg/aggregator/check_sampler.go:67-120 | the count attributed to a bucket is the growth of the sketch it touches, and no other sketch of the context grows |
| CheckSamplerRuns.Telescope | pkg/aggregator/check_sampler.go:67-187 | over every run the total inserted for a context is its first raw value plus the positive increments, plus what is counted again: after a flush has forgotten the context the next raw value enters in full |
| CheckSamplerRuns.NothingRecountedIff | pkg/aggregator/check_sampler.go:168-187 | nothing is counted again if and only if no bucket of the context comes after a flush has forgotten it |
| CheckSamplerRuns.LastValueTotalIff | pkg/aggregator/check_sampler.go:67-187 | when raw values never decrease the total is at least the last one, and equal to it under that condition exactly |
| CheckSamplerRuns.CommitsSafe | pkg/aggregator/check_sampler.go:148-166 | with ordered timestamps no commit meets a sketch whose context is gone |
| CheckSamplerValues.LastValueIs | pkg/aggregator/check_sampler.go:87-187 | over every run the sampler remembers the raw value and time of the last monotonic bucket of a context, unless a flush came more than 60 seconds after it |
| CheckSamplerValues.BucketInserts | pkg/aggregator/check_sampler.go:67-120 | after any run a bucket inserts as many values as it stands for, the raw value or the increase over that one, between its own bounds, into the sketch of its second and context and no other; nothing if it is not usable |
| CheckSamplerValues.CommitTakes | pkg/aggregator/check_sampler.go:148-166 | a commit takes the sketches of the seconds before its own and forgets contexts unseen for more than 300 seconds |
| CheckSampler.CheckSampler.AddBucket | pkg/aggregator/check_sampler.go:67-120 | one step of the state machine, discarded and first buckets included |
| CheckSampler.LabelledPoints | pkg/aggregator/check_sampler.go:132-145 | the labelled points of a signature are all its raw points in order if its context is tracked, and none otherwise |
| CheckSampler.CheckSerieSays | pkg/aggregator/check_sampler.go:132-145 | every serie of a check bears the name of its context with the suffix, its tags and host, no interval and the source type System |
| CheckSampler.CheckSampler.CommitSeries | pkg/aggregator/check_sampler.go:122-146 | appends the raw series of tracked contexts, in order, under their names, with no interval and the source type of checks |
| CheckSampler.CheckSampler.CommitSketches | pkg/aggregator/check_sampler.go:148-160 | moves exactly the sketches before the timestamp to the output, and fails exactly when a context is missing |
| CheckSampler.CheckSampler.Commit | pkg/aggregator/check_sampler.go:162-166 | series labelled, sketches taken, then contexts expired |
| CheckSampler.CheckSampler.Flush | pkg/aggregator/check_sampler.go:168-187 | hands over the output and forgets both values of every bucket unseen for longer than the expiry |
| Bytes.SplitConcat | pkg/dogstatsd/parse.go:59-65 | splitting distributes over a separator |
| Bytes.CountSplit | pkg/dogstatsd/parse.go:71-72 | there is one more part than separators |
| Bytes.ParseFormat | pkg/dogstatsd/parse.go:203-205 | every 64-bit integer is read back from its decimal form |
| Bytes.ParseInt64Iff | pkg/dogstatsd/parse.go:203-205 | an optional sign and digits are read at their place value; anything else, and anything not in 64 bits, is refused |
| Parse.NextField | pkg/dogstatsd/parse.go:59-65 | the first field and the rest are all the fields, and the rest is shorter |
| Parse.ParseTags | pkg/dogstatsd/parse.go:67-86 | the array filled in one pass equals the split on commas |
| Parse.ParseFloat64List | pkg/dogstatsd/parse.go:155-189 | the loop ends and equals: split on colons, drop empty pieces, parse each |
| MetricFormat.FloatsRefusedIff | pkg/dogstatsd/parse.go:155-189 | a list is refused exactly when all pieces are empty or a non-empty one does not parse |
| Parse.FoldedKeepsLast | pkg/dogstatsd/parse.go:128-141 | reading the optional fields in turn keeps the last rate and the last tags, and fails exactly when some rate does not parse |
| Parse.ParseMetricSample | pkg/dogstatsd/parse.go:88-152 | equals the field-by-field reading of the message |
| MetricReading.AcceptedIff | pkg/dogstatsd/parse.go:88-152 | a message is accepted exactly when it has two to four fields: a name with a value, one of six types, and fields whose rates parse |
| MetricReading.ReadsAttributes | pkg/dogstatsd/parse.go:88-152 | where each attribute stands: the name before the colon, the values the non-empty pieces in order, the rate and the tags in the last field that starts with @ or # |
| ParseMetrics.NameAndRawValueIff | pkg/dogstatsd/parse_metrics.go:56-67 | a name without colon and a value are read back exactly when neither is empty |
| ParseMetrics.ParseMetricType | pkg/dogstatsd/parse_metrics.go:69-85 | a type is read exactly from its own symbol |
| MetricFormat.MetricRoundTrip | pkg/dogstatsd/parse.go:88-152 | a printed sample parses to itself, with up to two optional fields (all the format check lets through) in any order, repeated, or left out when they say the default |
| MetricFormat.ParsedIsPrintable | pkg/dogstatsd/parse.go:88-152 | everything the parser accepts has a message that prints it |
| MetricFormat.ReprintIsStable | pkg/dogstatsd/parse.go:88-152 | parsing, printing in either field order and parsing again gives the same sample |
| MetricFormat.ReadableIff | pkg/dogstatsd/parse.go:88-152 | a sample is the result of some message if and only if it is printable |
| ParseEvents.ParseEvent | pkg/dogstatsd/parse_events.go:166-205 | the parser in 64-bit arithmetic with checked slices equals the reading in unbounded arithmetic |
| EventFormat.LengthsReadBack | pkg/dogstatsd/parse_events.go:70-107 | written lengths are read back exactly when the title length is not zero |
| EventFormat.LengthsDecide | pkg/dogstatsd/parse_events.go:166-205 | after a written header the lengths alone place title, text and fields, whatever bytes stand in between |
| EventFormat.OutOfRangeIff | pkg/dogstatsd/parse_events.go:177-182 | the parser indexes outside the message if and only if the lengths do not fit in 64 bits together |
| EventFormat.HugeTitleOutOfRange | pkg/dogstatsd/parse_events.go:177-182 | a title length of 2^63 - 1 is such a case |
| EventFormat.CleanEscape | pkg/dogstatsd/parse_events.go:109-111 | cleaning an escaped text equals cleaning the text itself |
| EventFormat.TextReadsBackIff | pkg/dogstatsd/parse_events.go:109-111 | a text survives escaping and cleaning if and only if it holds no backslash-n pair |
| EventFormat.FieldReadsBack | pkg/dogstatsd/parse_events.go:141-164 | each kind of printed field sets its own attribute and nothing else |
| EventFormat.FieldRefusedIff | pkg/dogstatsd/parse_events.go:141-164 | a field is an error exactly when it is a timestamp, priority or alert type with an unknown value |
| EventFormat.EventReadsBack | pkg/dogstatsd/parse_events.go:166-205 | every printed event, with fields in any order, comes back as itself with its backslash-n pairs turned into newlines |
| EventFormat.EventRoundTripIff | pkg/dogstatsd/parse_events.go:166-205 | a printed event comes back unchanged if and only if title and text hold no backslash-n pair |
| EventFormat.PairBecomesNewline | pkg/dogstatsd/parse_events.go:109-111 | the event titled backslash-n comes back titled with a newline |
| EventFormat.EmptyTitleRejected | pkg/dogstatsd/parse_events.go:92-95 | an empty title is always rejected |
| EventFields.NoiseIgnored | pkg/dogstatsd/parse_events.go:166-205 | fields with an error and fields of no known kind, anywhere among the others, and any character after the title and the text: the message reads as the plain one without them |
| EventFields.EventReadsBackAmong | pkg/dogstatsd/parse_events.go:166-205 | so a printed event is read back from a message with such fields among its own |
| EventFields.LastFieldHolds | pkg/dogstatsd/parse_events.go:113-205 | of each kind of field the last in the message holds, and without any the attribute has its default |
| EventFields.LengthsRead | pkg/dogstatsd/parse_events.go:50-107 | any decimal form of the lengths counts, the first three bytes and the last of the header do not; a title length below 1 or a text length below 0 is rejected |
| Packets.FirstLine | pkg/dogstatsd/server.go:358-372 | what a scan returns and how far it advances: the first line without its carriage return if it is kept, then the messages of the rest |
| Packets.Packet.NextMessage | pkg/dogstatsd/server.go:374-391 | consumes exactly the first line; none only when the packet holds no more messages |
| Packets.CutAtNewline | pkg/dogstatsd/server.go:349-391 | cutting a stream at a newline changes none of its messages |
| Packets.TerminatedRoundTrip | pkg/dogstatsd/server.go:374-391 | terminated messages come out one for one, and an unterminated last one exactly when termination is not asked for |
| Packets.LineByLine | pkg/dogstatsd/server.go:344-392 | line by line: each gives its message, without one trailing carriage return, unless that is empty |
| Enrich.ExtractTagsMetadata | pkg/dogstatsd/enrich.go:16-52 | the in-place filter leaves the ordinary tags in order, and returns the last host, the last entity and the origins |
| Enrich.KeptTagsExact | pkg/dogstatsd/enrich.go:19-31 | every ordinary tag is kept as often as it occurred and nothing else is |
| WireSamples.TagsReadOut | pkg/dogstatsd/enrich.go:16-52 | the tags that name no host and no entity stay in order; the last host tag and the last entity tag hold, with the prefixes and the word none spelled out |
| Enrich.EnrichedTagsAreStable | pkg/dogstatsd/enrich.go:16-52 | filtered tags pass a second time unchanged and name no host and no entity |
| Enrich.IsBlacklisted | pkg/dogstatsd/enrich.go:72-81 | true exactly when there is a namespace and some prefix of the list starts the name |
| Enrich.EnrichMetricSample | pkg/dogstatsd/enrich.go:83-131 | appends one sample per value, all with the same name, tags, host and origins |
| Enrich.EnrichEvent | pkg/dogstatsd/enrich.go:157-179 | hostname of the event before host tag before default |
| Batch.BatchingUnique | pkg/dogstatsd/batch.go:36-58 | the samples and the batch size leave only one way to batch |
| Batch.Batcher.constructor | pkg/dogstatsd/batch.go:25-34 | starts with nothing pending and nothing sent |
| Batch.Batcher.FlushSamples | pkg/dogstatsd/batch.go:52-58 | sends what the array holds, never an empty batch |
| Batch.Batcher.AppendSample | pkg/dogstatsd/batch.go:36-42 | the pending output gains exactly this sample, whether or not a full batch is sent first |
| Batch.Batcher.Flush | pkg/dogstatsd/batch.go:61-71 | everything taken since the last flush is sent in order, in full batches except for a last non-empty one |
| Server.ParseMetricMessage | pkg/dogstatsd/server.go:461-494 | parsed, mapped, enriched and given the extra tags, or an error |
| Server.ParseEventMessage | pkg/dogstatsd/server.go:496-508 | parsed, enriched and given the extra tags, or an error |
| Server.AppendSamples | pkg/dogstatsd/server.go:434-446 | each histogram is followed by its distribution copy when enabled |
| Server.ParsePackets | pkg/dogstatsd/server.go:393-451 | the batches sent hold, in order, what was pending and then the flat map over packets, messages and enriched samples; fails exactly when some event message is out of range |
| Delivery.PacketsConcat | pkg/dogstatsd/server.go:393-451 | packets may arrive in one list or in several |
| Delivery.CutPacket | pkg/dogstatsd/server.go:393-451 | cutting a packet after a newline changes nothing that is delivered |
| Delivery.WholePacket | pkg/dogstatsd/server.go:393-451 | a packet of terminated messages delivers each of them once, in order |
| Delivery.MetricDispatchIff | pkg/dogstatsd/parse.go:45-54 | a printed metric is taken for one exactly when its name does not start like an event or a service check |
| Delivery.NameTakenForServiceCheck | pkg/dogstatsd/parse.go:45-54 | any metric named _sc is taken for a service check |
| WireSamples.StartDecides | pkg/dogstatsd/server.go:393-451 | the start of any message decides which channel can get something from it, and it gets something exactly when the message parses |
| WireSamples.TypeOnWire | pkg/dogstatsd/enrich.go:54-70 | a message delivers counters exactly if its second field is c, gauges for g, histograms for h and ms, distributions for d, sets for s |
| WireSamples.MessageSamples | pkg/dogstatsd/server.go:461-494 | an accepted message becomes one sample per value, in order, with its raw value and rate, its name mapped and prefixed, its tags mapped, filtered and extended, and the host and origins its tags name |
| WireSamples.CopyFollows | pkg/dogstatsd/server.go:434-446 | each histogram is followed by a distribution that differs from it in type and prefixed name alone, if copies are enabled |
| WireSamples.DeliveredTypes | pkg/dogstatsd/server.go:434-446 | with copies a message still delivers under the type of its second field, but for the distributions beside histograms |
| WireSamples.CounterIsCounted | pkg/aggregator/time_sampler.go:58-83 | a sample delivered from a message of type c, once the sampler has it, is a counter last sampled then, and a finite value belongs to its bucket |
| WireSamples.EventEnriched | pkg/dogstatsd/enrich.go:133-201 | an event keeps everything but its tags, which are filtered and extended, and a missing hostname |
| Delivery.MetricDelivered | pkg/dogstatsd/server.go:461-494 | a printed metric reaches the batcher mapped, enriched and with its copies |
| Delivery.MetricIsOneLineIff | pkg/dogstatsd/parse.go:88-152 | a printed metric is one line exactly when its name, value and fields are |
| Delivery.EventIsOneLineIff | pkg/dogstatsd/parse_events.go:109-111 | a printed event is one line exactly when its optional fields are, whatever its title and text |
| Delivery.EventDelivered | pkg/dogstatsd/server.go:496-508 | a printed event reaches the batcher as it was, enriched |
| Delivery.PacketDelivered | pkg/dogstatsd/server.go:393-451 | a packet of printed metrics and events delivers exactly their enriched forms, in order, and stays in range |
| Delivery.CopiesCounted | pkg/dogstatsd/server.go:438-445 | copies add one distribution per histogram and change no other count |
| TemplateCache.StoredKeeps | pkg/autodiscovery/templatecache.go:34-60 | storing a template keeps the index equal to a scan |
| TemplateCache.DeletedKeepsIff | pkg/autodiscovery/templatecache.go:89-117 | deleting keeps it so if and only if the given identifiers cover the stored ones |
| TemplateCache.FoundIsScan | pkg/autodiscovery/templatecache.go:62-76 | a lookup returns exactly the stored templates that name the identifier |
| TemplateCache.StoredDeleted | pkg/autodiscovery/templatecache.go:34-117 | storing a new template and deleting it restores every list |
| TemplateCache.RunAgrees | pkg/autodiscovery/templatecache.go:34-117 | over every run without a digest clash the index equals a scan and the digest maps agree |
| TemplateCache.ClashLeavesStaleEntry | pkg/autodiscovery/templatecache.go:89-117 | with a clash, a deleted template leaves an entry behind, whatever the hash |
| Integration.DigestSeparatesIff | pkg/autodiscovery/integration/config.go:277-319 | some hash tells two lists of identifiers apart if and only if their names spell different strings |
| Integration.DigestReads | pkg/autodiscovery/integration/config.go:277-319 | which fields the digest reads, in which order; metrics, provider, cluster check and exclusion are not among them |
| TemplateCache.Cache.Set | pkg/autodiscovery/templatecache.go:34-60 | an error exactly for a configuration without identifiers; otherwise all three maps change as specified |
| TemplateCache.Cache.Get | pkg/autodiscovery/templatecache.go:62-76 | an error exactly for an unknown identifier |
| TemplateCache.Cache.Del | pkg/autodiscovery/templatecache.go:89-117 | an error exactly for an unknown digest; splices one occurrence per given identifier |
| ConfigPoller.DiffIsExact | pkg/autodiscovery/config_poller.go:116-140 | removed and new are disjoint, new was not known, and the diff takes the old set to the fetched one |
| ConfigPoller.ReplayIsCurrent | pkg/autodiscovery/config_poller.go:116-140 | when processing changes no digest, the diffs of any run, failed polls included, rebuild the provider's current configurations |
| ConfigPoller.ReplayIsCurrentIff | pkg/autodiscovery/config_poller.go:116-140 | they do so in every run if and only if processing changes the digest of no configuration the provider may return |
| ConfigPoller.UnchangedButReported | pkg/autodiscovery/config_poller.go:116-140 | a configuration fetched twice is reported as removed and new exactly when processing changed its digest |
| ConfigPoller.Poller.ContainsConfig | pkg/autodiscovery/config_poller.go:40-48 | true exactly when some known configuration is equal |
| ConfigPoller.Poller.Collect | pkg/autodiscovery/config_poller.go:116-140 | returns that diff; the list becomes the fetched one, whose instances the new configurations share; a failed fetch changes nothing |
| Polling.Poll | pkg/autodiscovery/config_poller.go:70-114 | one step of the provider runs: removals, template removals, then each new configuration; afterwards the list holds the decrypted instances |
| ProviderRuns.RunCovered | pkg/autodiscovery/config_poller.go:70-114 | coverage holds over every run of polls of any number of providers, services coming and going |
| ProviderRuns.StaticUnloadedIff | pkg/autodiscovery/autoconfig.go:424-461 | after any run, a static configuration that comes and goes is unloaded and unscheduled if and only if its digest when loaded is that of the raw configuration with decrypted instances |
| ProviderRuns.StaticRemovedIff | pkg/autodiscovery/autoconfig.go:424-461 | in every run everything loaded without a template is held by some poller, if and only if loading changes the digest of no configuration the providers may return |
| ProviderRuns.TemplateUnloadedIff | pkg/autodiscovery/autoconfig.go:463-488 | after any run, a template that comes and goes leaves the cache if and only if its JMX metrics keep its digest, and otherwise exactly what was filed under it stays loaded, but for what its raw digest takes along |
| ProviderRuns.TemplateRemovedIff | pkg/autodiscovery/autoconfig.go:463-488 | in every run every cached template is held by some poller, if and only if JMX metrics change the digest of no template and no provider returns a template and another configuration under one digest |
| ProviderConverse.NothingLeftIff | pkg/autodiscovery/autoconfig.go:456-488 | in every run nothing is loaded, scheduled or cached once no poller holds anything, whatever services exist, if and only if both conditions hold and no service resolves the empty template at a stale entry |
| ProviderConverse.ReturnedLoadedIff | pkg/autodiscovery/config_poller.go:99-140 | the converse: in every run each decryptable configuration that a provider returned last is loaded, if and only if it is taken for known only in place of what loads the same, its loaded digest is its own if it can be so taken while its provider holds that digest, no other provider can hold its loaded digest, and no template tried on a service resolves to it |
| ProviderConverse.CachedAllIff | pkg/autodiscovery/config_poller.go:99-111 | in every run each template that a poller holds is itself cached, with its metrics, if and only if JMX metrics change no digest, no two providers return templates under one digest, one provider's templates under one digest are the same with their metrics, and no provider returns a template under the digest another configuration of its own is held under |
| ProviderExamples.InitSecretStaysLoaded | pkg/autodiscovery/autoconfig.go:424-431 | a secret in init_config: still loaded and scheduled after the provider dropped it |
| ProviderExamples.InstanceSecretIsReportedAgain | pkg/autodiscovery/autoconfig.go:433-439 | a secret in an instance: unloaded, but reported as removed and new while unchanged, and replayed wrongly |
| ProviderExamples.MetricsTemplateStaysLoaded | pkg/autodiscovery/autoconfig.go:271-316 | a JMX template: still cached, and its resolved configuration loaded, after the provider dropped it |
| ProviderExamples.UnreadableInstanceHidesNext | pkg/autodiscovery/autoconfig.go:433-439 | an instance that cannot be decrypted becomes nil and the rest stays as it is: the same configuration without it comes next, is taken for known and is never loaded, though it can be decrypted |
| ProviderExamples.SecondHolderLeftOut | pkg/autodiscovery/config_poller.go:99-111 | two providers return one configuration and the first drops it: the second holds it, and it is neither loaded, scheduled nor cached |
| ProviderExamples.TagsFlagShared | pkg/autodiscovery/configresolver/configresolver.go:78-97 | two templates that differ only in ignoreAutodiscoveryTags, which resolving does not copy: removing the first unloads what the second is listed with |
| ProviderExamples.CutLoadsEmpty | pkg/autodiscovery/templatecache.go:62-76 | identifiers cut in two ways leave an entry at which a service resolves the empty template |
| Decryption.DecryptInstances | pkg/autodiscovery/autoconfig.go:433-439 | in place: every instance up to the first failing one is replaced, that one by nil |
| Decryption.DecryptConfig | pkg/autodiscovery/autoconfig.go:424-454 | an error exactly when some piece fails; the instances are overwritten either way once init_config is decrypted |
| Decryption.ReplacedAt | pkg/autodiscovery/autoconfig.go:433-439 | instances that decrypt are replaced independently of what follows |
| Decryption.DecryptedPieces | pkg/autodiscovery/autoconfig.go:424-454 | decryption succeeds exactly when every piece does, puts each piece in its own place and changes nothing else |
| Decryption.InstancesLeft | pkg/autodiscovery/autoconfig.go:424-439 | what each shared instance holds after an attempt: decrypted before the first failing one, empty there, unchanged after it or if init_config fails |
| AutoConfigRuns.RunCovered | pkg/autodiscovery/autoconfig.go:271-648 | over every run each loaded configuration that came from a template is listed under a live service and under a template, and the schedulers hold exactly what is loaded |
| SharedDigests.OwedLoadedIff | pkg/autodiscovery/autoconfig.go:456-488 | the converse of coverage: in every run everything listed under a service and a template is loaded, if and only if what may come keeps digests apart: matches that give one digest have one entity, and one template digest where a template may be removed, and no configuration that may be removed has that digest |
| SharedDigests.LoadedIsOwed | pkg/autodiscovery/autoconfig.go:456-488 | then what came from templates and is loaded is exactly what is listed under both |
| SharedDigests.SharedDigestUnloaded | pkg/autodiscovery/autoconfig.go:463-488 | a run of four operations after which a configuration is listed under a service and a cached template and is not loaded: for any two templates of different digests that a service resolves to one digest, the first unchanged by JMX metrics |
| AutoConfigRuns.NoServiceNoneLoaded | pkg/autodiscovery/autoconfig.go:631-648 | once every service is gone nothing that came from a template is loaded or scheduled |
| TemplateRuns.RunFiled | pkg/autodiscovery/autoconfig.go:463-488 | over every run resolved configurations are filed under cached templates only, if no service resolves the empty template at an entry that a clash of digests can leave behind |
| TemplateRuns.RunIndexed | pkg/autodiscovery/templatecache.go:34-117 | over every run, clashes included, the index equals a scan at every identifier and digest but those where a removal can name a template with fewer identifiers |
| TemplateRuns.NoTemplateNoneLoadedIff | pkg/autodiscovery/autoconfig.go:463-488 | in every run nothing that came from a template is loaded or scheduled once no template is cached, if and only if that condition holds |
| AutoConfig.AutoConfig.ProcessRemovedConfigs | pkg/autodiscovery/autoconfig.go:456-461 | tells the schedulers to unschedule exactly these configurations, and unloads by digest |
| AutoConfig.AutoConfig.RemoveConfigTemplates | pkg/autodiscovery/autoconfig.go:463-488 | for each cached template: exactly what was filed under it is unscheduled and unloaded, once, and its list dropped |
| AutoConfig.AutoConfig.ResolveTemplateForService | pkg/autodiscovery/autoconfig.go:532-553 | an error changes nothing; a resolved configuration enters all three indexes |
| AutoConfig.AutoConfig.ResolveTemplate | pkg/autodiscovery/autoconfig.go:492-528 | for any order of services: each identifier's services are visited once, and of each digest they resolve to the last configuration is returned, once |
| AutoConfig.AutoConfig.ProcessNewConfig | pkg/autodiscovery/autoconfig.go:271-316 | a template is stored and resolved, anything else decrypted and loaded, errors included; it returns exactly the configurations to schedule, as they are loaded; the shared instances end up decrypted |
| AutoConfig.AutoConfig.ProcessNewService | pkg/autodiscovery/autoconfig.go:581-628 | registers the service, loads what every matching template resolves to and schedules each of these by itself, in order, then the service |
| AutoConfig.AutoConfig.ProcessDelService | pkg/autodiscovery/autoconfig.go:631-648 | forgets the service, unschedules and unloads exactly what is listed under it, then unschedules the service |
| Announcing.HeldIsLoaded | pkg/autodiscovery/autoconfig.go:259-648 | over every run the schedulers hold under each digest the very configuration that is loaded under it, with every field, and nothing else |
| Announcing.AnnouncedInOrder | pkg/autodiscovery/autoconfig.go:612-622 | there is one announcement for each match that resolves, in order, and each is for what is loaded at that moment |
| Announcing.ScheduledIsLoaded | pkg/autodiscovery/autoconfig.go:270-316 | whatever a new configuration has scheduled is loaded at that moment, as it was scheduled |
| Announcing.ListedInOrder | pkg/autodiscovery/autoconfig.go:532-553 | what is resolved is listed in order under its service |
| Announcing.FiledInOrder | pkg/autodiscovery/autoconfig.go:532-553 | and under the digest of its template |
| Announcing.LastIsLoaded | pkg/autodiscovery/autoconfig.go:532-553 | of one digest what resolved last is loaded |
| Announcing.ServiceArrives | pkg/autodiscovery/autoconfig.go:581-628 | a new service is known whether or not its identifiers are, and with them is registered under each and listed with all that their templates resolve to |
| Announcing.ConfigArrives | pkg/autodiscovery/autoconfig.go:271-316 | a new template is cached and listed with all it resolves to; any other configuration is loaded as it decrypts, or dropped without a trace |
| CheckRuns.RunRemembers | pkg/collector/scheduler.go:71-121 | over every run each running check is remembered under some configuration |
| CheckRuns.UnscheduleKeepsFailed | pkg/collector/scheduler.go:104-119 | exactly the ids that failed to stop are kept, also when the list has duplicates |
| CheckRuns.UnscheduledStops | pkg/collector/scheduler.go:84-121 | stops that succeed leave no check of the configurations running and forget no other running check |
| CheckRuns.AllStopped | pkg/collector/scheduler.go:84-121 | unscheduling every remembered configuration with stops that succeed leaves nothing running |
| CheckRuns.InstancesIff | pkg/collector/collector.go:92-164 | the instance counter exceeds the running checks by the number of calls of StopCheck that succeeded |
| CheckRuns.StoppedStillCounted | pkg/collector/collector.go:128-164 | one check started and stopped: nothing runs and the counter is one |
| CheckStarts.ScheduleStarts | pkg/collector/scheduler.go:71-81 | scheduling starts, under every id not yet running, the first check given by the loaders of some configuration that is neither for the cluster, empty nor excluded and taken by the queue; nothing else starts or stops |
| CheckStarts.ScheduleRemembers | pkg/collector/scheduler.go:231-261 | the ids of all checks of a configuration are remembered under its digest, in order, after what was there |
| CheckStarts.StopsExactly | pkg/collector/scheduler.go:91-102 | a check stops exactly when one of the stops of its id succeeds at every stage |
| CheckStarts.UnscheduleForgets | pkg/collector/scheduler.go:84-121 | unscheduling keeps under the digest the ids that did not stop, each as often and in order, and touches no other list |
| CheckScheduler.Collector.RunCheck | pkg/collector/collector.go:92-126 | runs a check exactly when the collector is started, the id is new and the queue takes it |
| CheckScheduler.Collector.StopCheck | pkg/collector/collector.go:128-164 | drops a check exactly when every stage of the stop succeeds |
| CheckScheduler.CheckScheduler.GetChecksFromConfigs | pkg/collector/scheduler.go:231-261 | the checks of every configuration that is not skipped, and the cache grown by their ids when asked |
| CheckScheduler.CheckScheduler.Schedule | pkg/collector/scheduler.go:71-81 | one step of the state machine |
| CheckScheduler.CheckScheduler.Unschedule | pkg/collector/scheduler.go:84-121 | one step of the state machine, with its comparison of lengths |
| BlockedEndpoints.LevelIsPower | pkg/forwarder/blocked_endpoints.go:147-163 | the doubling levels are base times a power of two |
| BlockedEndpoints.ConfiguredIsProper | pkg/forwarder/blocked_endpoints.go:55-95 | every setting is corrected to one where the level of maxErrors is the first above the maximum |
| BlockedEndpoints.MaxErrorsLeast | pkg/forwarder/blocked_endpoints.go:72-80 | maxErrors is the least count whose level exceeds the maximum |
| BlockedEndpoints.InRangeIff | pkg/forwarder/blocked_endpoints.go:97-135 | over all runs the count stays in 0..maxErrors, if and only if twice the maximum is at least the base |
| BlockedEndpoints.SuccessNeverRaisesIff | pkg/forwarder/blocked_endpoints.go:117-135 | in every run a success never raises the count, if and only if twice the maximum is at least the base |
| BlockedEndpoints.SuccessCanRaise | pkg/forwarder/blocked_endpoints.go:117-135 | a concrete configuration where a success takes a clean endpoint to two errors |
| BlockedEndpoints.SuccessCanRaiseAfterFailure | pkg/forwarder/blocked_endpoints.go:97-135 | without recovery_reset: a failure takes the count to minus two and a success back to zero |
| BlockedEndpoints.RecoveriesClear | pkg/forwarder/blocked_endpoints.go:117-135 | n successes clear the block exactly when n recovery intervals cover the count |
| BlockedEndpoints.FailuresCount | pkg/forwarder/blocked_endpoints.go:97-115 | after any run n failures in a row raise the count by n, up to the maximum |
| BlockedEndpoints.BackoffBounds | pkg/forwarder/blocked_endpoints.go:147-163 | for every draw the wait lies between the level over the factor and the level, and never above the maximum |
| BlockedEndpoints.BackoffDrawn | pkg/forwarder/blocked_endpoints.go:147-163 | the wait is the maximum above it, and otherwise what the draw takes from between base times a power of two over the factor and that |
| BlockedEndpoints.BlockedUntil | pkg/forwarder/blocked_endpoints.go:97-135 | the block ends that wait after now, in whole nanoseconds, and no other endpoint is touched |
| BlockedEndpoints.NeverShorterIff | pkg/forwarder/blocked_endpoints.go:147-163 | for all draws more errors never wait less, if and only if the factor is 2 or at most one level is below the maximum |
| BlockedEndpoints.ShorterWaitExample | pkg/forwarder/blocked_endpoints.go:147-163 | with factor 3 one error can wait longer than two |
| BlockedEndpoints.FailureBlocksIff | pkg/forwarder/blocked_endpoints.go:97-115 | after any run of transactions, a failure blocks its endpoint for every draw if and only if the maximum is not below the base and the shortest wait is at least a nanosecond |
| BlockedEndpoints.BlockedEndpoints.Close | pkg/forwarder/blocked_endpoints.go:97-115 | only this endpoint changes: count one up to the limit, blocked until now plus the backoff |
| BlockedEndpoints.BlockedEndpoints.Recover | pkg/forwarder/blocked_endpoints.go:117-135 | only this endpoint changes: count down by the recovery interval, not below zero |
| BlockedEndpoints.EndpointsApart | pkg/forwarder/blocked_endpoints.go:97-135 | after any run the count of an endpoint is that of its own failures and successes alone |
| BlockedEndpoints.BlockedIff | pkg/forwarder/blocked_endpoints.go:137-145 | after any run an endpoint is blocked at a time if and only if the backoff of its own history, counted from its last transaction, is not over |
| GitlabJobs.EndsIff | tasks/test.py:465-490 | some bound holds for every order of pops if and only if no requested job leads into a cycle; if one does, no execution ever empties the worklist, whatever `pop` chooses |
| GitlabJobs.SelfReferenceNeverEnds | tasks/test.py:465-490 | with a job that extends itself no execution ever empties the worklist, and executions exceed every bound |
| GitlabJobs.MakeSimple | tasks/test.py:465-498 | the loop ends, and the file keeps exactly the jobs reachable from the requested ones, without their filters, and the reserved keys |
| GitlabJobs.KeptExactly | tasks/test.py:465-498 | the file has the four reserved keys and the jobs to which a chain of needs and extends leads, each as it was but for rules, except and only |
| GitlabJobs.ProcessJob | tasks/test.py:468-490 | what one popped job adds, marks and loses |
| IncludeHeaders.Processor.FindInclude | pkg/ebpf/include_headers.go:116-126 | the header beside the including file if it exists, else the one in the least include directory that has it, else none |
| IncludeHeaders.Env.ResolvedAt | pkg/ebpf/include_headers.go:116-126 | a header beside the including file is taken; otherwise the one in the first include directory that has it; otherwise none |
| IncludeHeaders.Processor.ProcessIncludes | pkg/ebpf/include_headers.go:83-114 | ends on every finite file system; on success files entered are complete except those still open |
| IncludeHeaders.Processor.Run | pkg/ebpf/include_headers.go:52-81 | succeeds exactly when every reachable file can be read and its headers found; then each own line of each reachable file is written exactly once, as it is, in order, headers before their use, and before a line of the root nothing but lines of the root and what its includes above that line lead to |

## Left out

- Channels, goroutines, locks, tickers, health handles, telemetry, expvars and logging.
- Float rounding and strconv for floats: a float is a real, an infinity or NaN, and parsing one is an arbitrary function. Sketches are lists of insertions, and the points a metric flushes to are an arbitrary function of its samples; `PointWindow` asks of it that a point with a time of its own, as a rate gives it, has the time of one of its samples.
- 64-bit overflow of timestamps, durations and bucket arithmetic; only the event header's lengths wrap.
- The string interner and the float-list pool: interning is the identity, and a pooled list starts empty.
- The service-check parser and its enrichment repeat the event pattern; they are one arbitrary function from message and origin. The mapper is an arbitrary partial function from names.
- Server.ParsePackets: when an event message is out of range nothing is said about what was batched before it; the source stops there. Debug statistics, which sort the tags of a sample in place, are not modelled.
- Enrich.EnrichEvent: event priorities and alert types map one to one onto those of the metrics package and are kept as they are.
- TimeSampler.TimeSampler.Flush: after a read of a missing context only the error is stated, since the source stops there.
- CheckSampler.CheckSampler.CommitSeries: what flushing the check's metrics returns is a parameter; its samples only track contexts.
- AutoConfig.AutoConfig.ProcessNewService: the configuration that announces a service itself is an event of its own and is not counted as a loaded one. Order of tags and the tagger are inside the arbitrary resolution function.
- AutoConfig.AutoConfig.ProcessNewConfig: the JMX metrics store is an arbitrary function from a configuration to its init config.
- Decryption.DecryptConfig: decrypting one piece of data is a fixed function of the data and the check's name, so a backend that answers differently later is not modelled. An instance is what the digest reads of it (YAML with sorted tags).
- checkTagFreshness, which deletes and adds a service again, listener retries and AddScheduler's replay.
- ConfigPoller.Poller.Collect: equality of configurations is equality of digests, so of the hash. A provider hands out instances that nobody else holds. The provider's name, outside the digest, is taken as already set. IsUpToDate and stop are not modelled, and the first collection, GetAllConfigs, is a poll that knows nothing yet.
- CheckScheduler.CheckScheduler.Schedule: loaders, queues and stop timeouts are an arbitrary oracle; ReloadAllCheckInstances and GetChecksByNameForConfigs are not modelled.
- BlockedEndpoints.BlockedEndpoints.Close: the random draw is a parameter between 0 and 1; floor(log2) is on reals without rounding.
- GitlabJobs.MakeSimple: needs entries that are not names, and YAML itself. The requested jobs are a set, so an empty name after splitting is one that is not in the file.
- IncludeHeaders.Processor.Run: the file system is a map from paths to lines already matched against the include pattern; write errors, scanner limits and symbolic links are not modelled.
- pkg/forwarder/domain_forwarder.go, whose guarantees rest on code outside the modelled files.
