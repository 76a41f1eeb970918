/** pkg/collector/scheduler.go and collector.go: the methods, proved equal to the steps of CheckRuns. */
module CheckScheduler {
  import opened Integration
  import M = CheckRuns

  class Collector {
    var checks: map<M.CheckId, M.Check>
    var checkInstances: int
    var started: bool

    constructor ()
      ensures checks == map[] && checkInstances == 0 && started
    {
      checks, checkInstances, started := map[], 0, true;
    }

    method Stop()
      modifies this
      ensures !started && checks == old(checks) && checkInstances == old(checkInstances)
    {
      started := false;
    }

    method RunCheck(ch: M.Check, o: M.Oracle) returns (ok: bool)
      modifies this
      ensures ok == (old(started) && ch.id !in old(checks) && o.enter(ch))
      ensures checks == if ok then old(checks)[ch.id := ch] else old(checks)
      ensures checkInstances == old(checkInstances) + (if ok then 1 else 0) && started == old(started)
    {
      if !started {
        return false;
      }
      if ch.id in checks {
        return false;
      }
      if !o.enter(ch) {
        return false;
      }
      checkInstances := checkInstances + 1;
      checks := checks[ch.id := ch];
      return true;
    }

    method StopCheck(id: M.CheckId, out: M.StopOutcome) returns (ok: bool)
      modifies this
      ensures ok == (old(started) && id in old(checks) && out == M.StopOutcome(true, true, true))
      ensures checks == if ok then old(checks) - {id} else old(checks)
      ensures checkInstances == old(checkInstances) && started == old(started)
    {
      if !started {
        return false;
      }
      if id !in checks {
        return false;
      }
      if !out.canceled {
        return false;
      }
      if !out.runnerStopped {
        return false;
      }
      if !out.checkCanceled {
        return false;
      }
      checks := checks - {id};
      return true;
    }
  }

  class CheckScheduler {
    const hash: string -> Digest
    const collector: Collector
    var configToChecks: map<Digest, seq<M.CheckId>>

    ghost function State(): M.State
      reads this, collector
    {
      M.State(configToChecks, collector.checks, collector.checkInstances, collector.started)
    }

    constructor (hash: string -> Digest, collector: Collector)
      ensures this.hash == hash && this.collector == collector && configToChecks == map[]
    {
      this.hash, this.collector := hash, collector;
      configToChecks := map[];
    }

    method GetChecksFromConfigs(configs: seq<Config>, o: M.Oracle, populateCache: bool) returns (allChecks: seq<M.Check>)
      modifies this
      ensures allChecks == M.AllChecks(o, configs)
      ensures configToChecks == if populateCache then M.Noted(hash, old(configToChecks), o, configs) else old(configToChecks)
    {
      allChecks := [];
      for n := 0 to |configs|
        invariant allChecks == M.AllChecks(o, configs[..n])
        invariant configToChecks == if populateCache then M.Noted(hash, old(configToChecks), o, configs[..n]) else old(configToChecks)
      {
        assert configs[..n + 1][..n] == configs[..n];
        var config := configs[n];
        var checks: seq<M.Check> := [];
        if config.IsCheckConfig() && !config.metricsExcluded {
          checks := o.load(config);
        }
        allChecks := allChecks + checks;
        if populateCache {
          NoteChecks(DigestOf(hash, config), checks);
        }
      }
      assert configs[..|configs|] == configs;
    }

    method NoteChecks(configDigest: Digest, checks: seq<M.Check>)
      modifies this
      ensures configToChecks == if checks == [] then old(configToChecks)
                                else old(configToChecks)[configDigest := M.IdsOf(old(configToChecks), configDigest) + M.Ids(checks)]
    {
      for n := 0 to |checks|
        invariant configToChecks == if n == 0 then old(configToChecks)
                                    else old(configToChecks)[configDigest := M.IdsOf(old(configToChecks), configDigest) + M.Ids(checks)[..n]]
      {
        assert M.Ids(checks)[..n + 1] == M.Ids(checks)[..n] + [checks[n].id];
        ghost var known := M.IdsOf(old(configToChecks), configDigest);
        assert known + M.Ids(checks)[..n + 1] == M.IdsOf(configToChecks, configDigest) + [checks[n].id];
        configToChecks := configToChecks[configDigest := M.IdsOf(configToChecks, configDigest) + [checks[n].id]];
      }
      assert M.Ids(checks)[..|checks|] == M.Ids(checks);
    }

    method Schedule(configs: seq<Config>, o: M.Oracle)
      modifies this, collector
      ensures State() == M.Scheduled(hash, old(State()), o, configs)
    {
      ghost var s := State();
      var checks := GetChecksFromConfigs(configs, o, true);
      ghost var s1 := State();
      for n := 0 to |checks|
        invariant State() == M.RunAll(s1, o, checks[..n])
      {
        assert checks[..n + 1][..n] == checks[..n];
        var _ := collector.RunCheck(checks[n], o);
      }
      assert checks[..|checks|] == checks;
    }

    /** Stops the checks in turn; `from` counts the stops of earlier configurations. */
    method StopChecks(ids: seq<M.CheckId>, o: M.Oracle, from: nat) returns (stopped: set<M.CheckId>)
      modifies collector
      ensures (State(), stopped) == M.StopAll(old(State()), o, ids, from)
    {
      ghost var s := State();
      stopped := {};
      for n := 0 to |ids|
        invariant (State(), stopped) == M.StopAll(s, o, ids[..n], from)
      {
        assert ids[..n + 1][..n] == ids[..n];
        var ok := collector.StopCheck(ids[n], o.stop(from + n));
        if ok {
          stopped := stopped + {ids[n]};
        }
      }
      assert ids[..|ids|] == ids;
    }

    /** Drops the entry when the lengths agree, and keeps the dangling ids otherwise. */
    method Forget(digest: Digest, stopped: set<M.CheckId>)
      modifies this
      ensures configToChecks == M.Forgotten(old(configToChecks), digest, stopped)
    {
      var ids := M.IdsOf(configToChecks, digest);
      if |stopped| == |ids| {
        configToChecks := configToChecks - {digest};
      } else {
        var dangling: seq<M.CheckId> := [];
        for n := 0 to |ids|
          invariant dangling == M.Without(ids[..n], stopped) && configToChecks == old(configToChecks)
        {
          assert ids[..n + 1][..n] == ids[..n];
          if ids[n] !in stopped {
            dangling := dangling + [ids[n]];
          }
        }
        assert ids[..|ids|] == ids;
        configToChecks := configToChecks[digest := dangling];
      }
    }

    /** One configuration of `Unschedule`; `from` counts the stops of earlier ones. */
    method UnscheduleConfig(config: Config, o: M.Oracle, from: nat) returns (count: nat)
      modifies this, collector
      ensures State() == M.UnscheduledOne(hash, old(State()), o, config, from)
      ensures count == from + M.StopCount(hash, old(State()), config)
    {
      if !config.IsCheckConfig() || config.metricsExcluded {
        return from;
      }
      var digest := DigestOf(hash, config);
      var ids := M.IdsOf(configToChecks, digest);
      M.StopAllFacts(State(), o, ids, from);
      var stopped := StopChecks(ids, o, from);
      Forget(digest, stopped);
      count := from + |ids|;
    }

    method Unschedule(configs: seq<Config>, o: M.Oracle)
      modifies this, collector
      ensures State() == M.Unscheduled(hash, old(State()), o, configs).0
    {
      ghost var s := State();
      var count := 0;
      for n := 0 to |configs|
        invariant (State(), count) == M.Unscheduled(hash, s, o, configs[..n])
      {
        assert configs[..n + 1][..n] == configs[..n];
        count := UnscheduleConfig(configs[n], o, count);
      }
      assert configs[..|configs|] == configs;
    }
  }
}
