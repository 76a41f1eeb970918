/** pkg/autodiscovery/integration/config.go: configurations and their digests. */
module Integration {
  datatype AdId = AdId(name: string)

  datatype Digest = Digest(value: string)

  /** `instances` holds each instance as the digest reads it; `metricConfig` and `provider` are outside the digest. */
  datatype Config = Config(
    name: string,
    instances: seq<string>,
    initConfig: string,
    adIdentifiers: seq<AdId>,
    nodeName: string,
    logsConfig: string,
    entity: string,
    ignoreAutodiscoveryTags: bool,
    metricConfig: string,
    provider: string,
    clusterCheck: bool,
    metricsExcluded: bool)
  {
    predicate IsTemplate() {
      |adIdentifiers| > 0
    }

    predicate IsCheckConfig() {
      !clusterCheck && |instances| > 0
    }
  }

  /** The zero value that reading a missing map entry gives. */
  const EMPTY := Config("", [], "", [], "", "", "", false, "", "", false, false)

  function Concat(parts: seq<string>): string {
    if parts == [] then "" else parts[0] + Concat(parts[1..])
  }

  function Names(ids: seq<AdId>): seq<string> {
    seq(|ids|, i requires 0 <= i < |ids| => ids[i].name)
  }

  /** The bytes that `Digest` hashes, in order. Nothing separates the identifiers. */
  function DigestInput(c: Config): string {
    c.name + Concat(c.instances) + c.initConfig + Concat(Names(c.adIdentifiers)) + c.nodeName + c.logsConfig + c.entity +
    if c.ignoreAutodiscoveryTags then "true" else "false"
  }

  function DigestOf(hash: string -> Digest, c: Config): Digest {
    hash(DigestInput(c))
  }

  /** A digest reads these fields and no others, in this order. */
  lemma DigestReads(c: Config, instances: string, ids: string)
    requires instances == Concat(c.instances) && ids == Concat(Names(c.adIdentifiers))
    ensures forall hash: string -> Digest ::
              DigestOf(hash, c) == hash(c.name + instances + c.initConfig + ids + c.nodeName + c.logsConfig + c.entity +
                                        if c.ignoreAutodiscoveryTags then "true" else "false")
    ensures forall hash: string -> Digest, metrics, provider, cluster, excluded ::
              DigestOf(hash, c.(metricConfig := metrics, provider := provider, clusterCheck := cluster, metricsExcluded := excluded)) == DigestOf(hash, c)
  {}

  /** Templates that differ only in how their identifiers are cut have the same digest, whatever the hash. */
  lemma DigestIgnoresCuts(hash: string -> Digest, c: Config, a: seq<AdId>, b: seq<AdId>)
    requires Concat(Names(a)) == Concat(Names(b))
    ensures DigestOf(hash, c.(adIdentifiers := a)) == DigestOf(hash, c.(adIdentifiers := b))
  {}

  lemma ConcatTwo(a: string, b: string)
    ensures Concat([a]) == a && Concat([a, b]) == a + b
  {
    assert [a, b][1..] == [b] && [b][1..] == [] && [a][1..] == [];
  }

  /** Two lists of identifiers are told apart by the digest of some hash exactly when their names spell different strings. */
  lemma DigestSeparatesIff(c: Config, a: seq<AdId>, b: seq<AdId>)
    ensures (forall hash: string -> Digest :: DigestOf(hash, c.(adIdentifiers := a)) == DigestOf(hash, c.(adIdentifiers := b)))
       <==> Concat(Names(a)) == Concat(Names(b))
  {
    var ca, cb := c.(adIdentifiers := a), c.(adIdentifiers := b);
    var first, last := c.name + Concat(c.instances) + c.initConfig,
                       c.nodeName + c.logsConfig + c.entity + if c.ignoreAutodiscoveryTags then "true" else "false";
    DigestParts(ca);
    DigestParts(cb);
    var identity: string -> Digest := s => Digest(s);
    if DigestOf(identity, ca) == DigestOf(identity, cb) {
      Cancel(first, Concat(Names(a)), Concat(Names(b)), last);
    }
  }

  lemma DigestParts(c: Config)
    ensures DigestInput(c) == c.name + Concat(c.instances) + c.initConfig + Concat(Names(c.adIdentifiers)) +
                              (c.nodeName + c.logsConfig + c.entity + if c.ignoreAutodiscoveryTags then "true" else "false")
  {}

  lemma Cancel(first: string, x: string, y: string, last: string)
    requires first + x + last == first + y + last
    ensures x == y
  {
    var s := first + x + last;
    assert |s| == |first| + |x| + |last| == |first| + |y| + |last|;
    assert s[|first|..|first| + |x|] == x;
    assert (first + y + last)[|first|..|first| + |y|] == y;
  }
}
