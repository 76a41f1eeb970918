/** decryptConfig of pkg/autodiscovery/autoconfig.go, which writes the instances of its argument in place. */
module Decryption {
  import opened Integration
  import opened Wrappers

  /** secrets.Decrypt for one piece of data of the named check. */
  type Secrets = (string, string) -> Result<string>

  /** What the digest reads of an instance that is nil, as a failed decryption leaves it. */
  const NIL_INSTANCE := "{}\n"

  /** Whether the instances are reached at all: init_config is decrypted before them. */
  predicate Reached(secrets: Secrets, c: Config) {
    secrets(c.initConfig, c.name).Ok?
  }

  predicate AllOk(secrets: Secrets, name: string, instances: seq<string>) {
    forall i :: 0 <= i < |instances| ==> secrets(instances[i], name).Ok?
  }

  /** Every instance up to the first failing one is replaced, that one by nil. */
  function Replaced(secrets: Secrets, name: string, instances: seq<string>): (r: seq<string>)
    ensures |r| == |instances|
  {
    if instances == [] then []
    else
      match secrets(instances[0], name)
      case Err => [NIL_INSTANCE] + instances[1..]
      case Ok(plain) => [plain] + Replaced(secrets, name, instances[1..])
  }

  /** What the instances hold after a decryption, whether it succeeded or not. */
  function InstancesAfter(secrets: Secrets, c: Config): seq<string> {
    if Reached(secrets, c) then Replaced(secrets, c.name, c.instances) else c.instances
  }

  function Decrypted(secrets: Secrets, c: Config): (r: Result<Config>)
    ensures r.Ok? ==> r.value.instances == InstancesAfter(secrets, c) && r.value.adIdentifiers == c.adIdentifiers
  {
    var metrics, logs := secrets(c.metricConfig, c.name), secrets(c.logsConfig, c.name);
    if Reached(secrets, c) && AllOk(secrets, c.name, c.instances) && metrics.Ok? && logs.Ok? then
      Ok(c.(initConfig := secrets(c.initConfig, c.name).value, instances := Replaced(secrets, c.name, c.instances),
            metricConfig := metrics.value, logsConfig := logs.value))
    else Err
  }

  /** Decryption succeeds exactly when every piece does, and puts each piece in its own place; nothing else changes. */
  lemma DecryptedPieces(secrets: Secrets, c: Config)
    ensures Decrypted(secrets, c).Ok? <==>
              && secrets(c.initConfig, c.name).Ok? && secrets(c.metricConfig, c.name).Ok? && secrets(c.logsConfig, c.name).Ok?
              && forall i :: 0 <= i < |c.instances| ==> secrets(c.instances[i], c.name).Ok?
    ensures Decrypted(secrets, c).Ok? ==>
              var r := Decrypted(secrets, c).value;
              && Ok(r.initConfig) == secrets(c.initConfig, c.name) && Ok(r.metricConfig) == secrets(c.metricConfig, c.name)
              && Ok(r.logsConfig) == secrets(c.logsConfig, c.name) && |r.instances| == |c.instances|
              && (forall i :: 0 <= i < |c.instances| ==> Ok(r.instances[i]) == secrets(c.instances[i], c.name))
              && r.name == c.name && r.adIdentifiers == c.adIdentifiers && r.nodeName == c.nodeName && r.entity == c.entity
              && r.ignoreAutodiscoveryTags == c.ignoreAutodiscoveryTags && r.provider == c.provider
              && r.clusterCheck == c.clusterCheck && r.metricsExcluded == c.metricsExcluded
  {
    if Decrypted(secrets, c).Ok? {
      forall i | 0 <= i < |c.instances|
        ensures Ok(Decrypted(secrets, c).value.instances[i]) == secrets(c.instances[i], c.name)
      {
        ReplacedUpTo(secrets, c.name, c.instances, |c.instances|, i);
      }
    }
  }

  /** The first n instances decrypt and the next one, if there is one, does not. */
  predicate FailsAt(secrets: Secrets, name: string, instances: seq<string>, n: nat) {
    && n <= |instances| && (forall i :: 0 <= i < n ==> secrets(instances[i], name).Ok?)
    && (n < |instances| ==> secrets(instances[n], name).Err?)
  }

  lemma {:induction false} ReplacedUpTo(secrets: Secrets, name: string, instances: seq<string>, n: nat, i: nat)
    requires FailsAt(secrets, name, instances, n) && i < |instances|
    ensures var r := Replaced(secrets, name, instances);
            if i < n then Ok(r[i]) == secrets(instances[i], name) else if i == n then r[i] == NIL_INSTANCE else r[i] == instances[i]
  {
    if n > 0 && i > 0 {
      assert forall j :: 0 <= j < |instances| - 1 ==> instances[1..][j] == instances[j + 1];
      ReplacedUpTo(secrets, name, instances[1..], n - 1, i - 1);
    }
  }

  /**
   What the shared instances hold after an attempt: nothing changes if init_config fails; otherwise the instances before the
   first failing one are decrypted, that one is empty, and those after it are as they were.
   */
  lemma InstancesLeft(secrets: Secrets, c: Config, n: nat, i: nat)
    requires FailsAt(secrets, c.name, c.instances, n) && i < |c.instances|
    ensures |InstancesAfter(secrets, c)| == |c.instances|
    ensures var left := InstancesAfter(secrets, c)[i];
            if secrets(c.initConfig, c.name).Err? || i > n then left == c.instances[i]
            else if i < n then Ok(left) == secrets(c.instances[i], c.name) else left == "{}\n"
  {
    ReplacedUpTo(secrets, c.name, c.instances, n, i);
  }

  lemma {:induction false} ReplacedAt(secrets: Secrets, name: string, done: seq<string>, rest: seq<string>)
    requires AllOk(secrets, name, done)
    ensures Replaced(secrets, name, done + rest) == Replaced(secrets, name, done) + Replaced(secrets, name, rest)
  {
    if done == [] {
      assert done + rest == rest;
    } else {
      assert (done + rest)[0] == done[0] && (done + rest)[1..] == done[1..] + rest;
      ReplacedAt(secrets, name, done[1..], rest);
    }
  }

  /** The loop over the instances, in place. */
  method DecryptInstances(secrets: Secrets, name: string, instances: array<string>) returns (ok: bool)
    modifies instances
    ensures ok == AllOk(secrets, name, old(instances[..]))
    ensures instances[..] == Replaced(secrets, name, old(instances[..]))
  {
    ghost var was := instances[..];
    for i := 0 to instances.Length
      invariant AllOk(secrets, name, was[..i])
      invariant instances[..i] == Replaced(secrets, name, was[..i]) && instances[i..] == was[i..]
    {
      var r := secrets(instances[i], name);
      OneMore(secrets, name, was, i);
      instances[i] := if r.Ok? then r.value else NIL_INSTANCE;
      if r.Err? {
        assert instances[..] == Replaced(secrets, name, was[..i]) + [NIL_INSTANCE] + was[i + 1..];
        return false;
      }
    }
    assert was[..instances.Length] == was && instances[..instances.Length] == instances[..];
    ok := true;
  }

  lemma OneMore(secrets: Secrets, name: string, was: seq<string>, i: nat)
    requires i < |was| && AllOk(secrets, name, was[..i])
    ensures secrets(was[i], name).Ok? ==>
              AllOk(secrets, name, was[..i + 1]) &&
              Replaced(secrets, name, was[..i + 1]) == Replaced(secrets, name, was[..i]) + [secrets(was[i], name).value]
    ensures secrets(was[i], name).Err? ==>
              !AllOk(secrets, name, was) &&
              Replaced(secrets, name, was) == Replaced(secrets, name, was[..i]) + [NIL_INSTANCE] + was[i + 1..]
  {
    assert was == was[..i] + was[i..] && was[i..][0] == was[i] && was[i..][1..] == was[i + 1..];
    assert was[..i + 1] == was[..i] + [was[i]];
    ReplacedAt(secrets, name, was[..i], was[i..]);
    ReplacedAt(secrets, name, was[..i], [was[i]]);
  }

  /**
   The instances are an array that the caller may hold elsewhere; init_config, metrics and logs are
   written to a copy of the configuration.
   */
  method DecryptConfig(secrets: Secrets, conf: Config, instances: array<string>) returns (r: Result<Config>)
    requires instances[..] == conf.instances
    modifies instances
    ensures r == Decrypted(secrets, conf)
    ensures instances[..] == InstancesAfter(secrets, conf)
  {
    var initConfig := secrets(conf.initConfig, conf.name);
    if initConfig.Err? {
      return Err;
    }
    var ok := DecryptInstances(secrets, conf.name, instances);
    if !ok {
      return Err;
    }
    var metricConfig := secrets(conf.metricConfig, conf.name);
    if metricConfig.Err? {
      return Err;
    }
    var logsConfig := secrets(conf.logsConfig, conf.name);
    if logsConfig.Err? {
      return Err;
    }
    r := Ok(conf.(initConfig := initConfig.value, instances := instances[..],
                  metricConfig := metricConfig.value, logsConfig := logsConfig.value));
  }
}
