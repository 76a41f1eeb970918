/**
 Which checks one call starts and stops, and what is remembered for each configuration, said about the configurations and
 what their loaders gave. Main results: ScheduleStarts, ScheduleRemembers, StopsExactly, UnscheduleForgets.
 */
module CheckStarts {
  import opened Integration
  import opened CheckRuns

  // ----- what is loaded -----

  /** The checks of a configuration: what its loaders give, unless it is for the cluster, has no instance or is excluded. */
  predicate Loads(o: Oracle, c: Config, check: Check) {
    !c.clusterCheck && c.instances != [] && !c.metricsExcluded && check in o.load(c)
  }

  lemma LoadedExactly(o: Oracle, c: Config)
    ensures LoadedChecks(o, c) == if c.clusterCheck || c.instances == [] || c.metricsExcluded then [] else o.load(c)
  {}

  /** The checks of several configurations follow each other in order. */
  lemma {:induction false} ChecksInTurn(o: Oracle, a: seq<Config>, b: seq<Config>)
    ensures AllChecks(o, a + b) == AllChecks(o, a) + AllChecks(o, b)
  {
    if b == [] {
      assert a + b == a && AllChecks(o, a) + [] == AllChecks(o, a);
    } else {
      assert (a + b)[..|a| + |b| - 1] == a + b[..|b| - 1];
      ChecksInTurn(o, a, b[..|b| - 1]);
    }
  }

  lemma {:induction false} AllChecksAre(o: Oracle, configs: seq<Config>, check: Check)
    ensures check in AllChecks(o, configs) <==> exists i :: 0 <= i < |configs| && Loads(o, configs[i], check)
  {
    if configs != [] {
      var n := |configs| - 1;
      AllChecksAre(o, configs[..n], check);
      LoadedExactly(o, configs[n]);
      if i :| 0 <= i < |configs| && Loads(o, configs[i], check) {
        assert i < n ==> configs[..n][i] == configs[i];
      }
    }
  }

  // ----- what starts -----

  /** The first of the checks with this id that the queue takes. */
  predicate Starts(o: Oracle, checks: seq<Check>, id: CheckId, i: int) {
    && 0 <= i < |checks| && checks[i].id == id && o.enter(checks[i])
    && forall j :: 0 <= j < i && checks[j].id == id ==> !o.enter(checks[j])
  }

  ghost predicate SomeStarts(o: Oracle, checks: seq<Check>, id: CheckId) {
    exists i :: Starts(o, checks, id, i)
  }

  lemma StartsMore(o: Oracle, checks: seq<Check>, id: CheckId, i: int)
    requires checks != []
    ensures var n := |checks| - 1;
            Starts(o, checks, id, i) <==>
              (if i == n then checks[n].id == id && o.enter(checks[n]) && forall j :: 0 <= j < n && checks[j].id == id ==> !o.enter(checks[j])
               else Starts(o, checks[..n], id, i))
  {}

  lemma NoneStarts(o: Oracle, checks: seq<Check>, id: CheckId, k: int)
    requires 0 <= k < |checks| && checks[k].id == id && o.enter(checks[k])
    ensures SomeStarts(o, checks, id)
    decreases k
  {
    if !Starts(o, checks, id, k) {
      var j :| 0 <= j < k && checks[j].id == id && o.enter(checks[j]);
      NoneStarts(o, checks, id, j);
    }
  }

  lemma {:induction false} RunAllStarts(s: State, o: Oracle, checks: seq<Check>, id: CheckId)
    requires s.started
    ensures var s' := RunAll(s, o, checks);
            && s'.started
            && (id in s.running ==> id in s'.running && s'.running[id] == s.running[id])
            && (id !in s.running ==>
                  && (id in s'.running <==> SomeStarts(o, checks, id))
                  && forall i :: Starts(o, checks, id, i) ==> s'.running[id] == checks[i])
  {
    if checks != [] {
      var n := |checks| - 1;
      RunAllStarts(s, o, checks[..n], id);
      forall i
        ensures Starts(o, checks, id, i) <==>
                (if i == n then checks[n].id == id && o.enter(checks[n]) && forall j :: 0 <= j < n && checks[j].id == id ==> !o.enter(checks[j])
                 else Starts(o, checks[..n], id, i))
      {
        StartsMore(o, checks, id, i);
      }
      if i :| Starts(o, checks[..n], id, i) {
        assert Starts(o, checks, id, i);
      } else {
        if j :| 0 <= j < n && checks[j].id == id && o.enter(checks[j]) {
          NoneStarts(o, checks[..n], id, j);
        }
        assert Starts(o, checks, id, n) <==> checks[n].id == id && o.enter(checks[n]);
      }
    }
  }

  lemma {:induction false} NothingRuns(s: State, o: Oracle, checks: seq<Check>)
    requires !s.started
    ensures RunAll(s, o, checks) == s
  {
    if checks != [] {
      NothingRuns(s, o, checks[..|checks| - 1]);
    }
  }

  /**
   Scheduling starts, under every id that is not running yet, the first check that the loaders of some configuration gave
   and the queue takes, and nothing else; a stopped collector starts none, and what runs goes on.
   */
  lemma ScheduleStarts(hash: string -> Digest, s: State, o: Oracle, configs: seq<Config>, id: CheckId)
    ensures var s', checks := Scheduled(hash, s, o, configs), AllChecks(o, configs);
            && s'.started == s.started
            && (id in s.running ==> id in s'.running && s'.running[id] == s.running[id])
            && (id !in s.running ==>
                  && (id in s'.running <==> s.started && SomeStarts(o, checks, id))
                  && forall i :: s.started && Starts(o, checks, id, i) ==> s'.running[id] == checks[i])
  {
    var s1 := s.(configToChecks := Noted(hash, s.configToChecks, o, configs));
    if s.started {
      RunAllStarts(s1, o, AllChecks(o, configs), id);
    } else {
      NothingRuns(s1, o, AllChecks(o, configs));
    }
  }

  // ----- what is remembered -----

  /** The ids of the checks of the configurations with this digest, in order. */
  function IdsFor(hash: string -> Digest, o: Oracle, configs: seq<Config>, d: Digest): seq<CheckId> {
    if configs == [] then []
    else
      var c := configs[|configs| - 1];
      IdsFor(hash, o, configs[..|configs| - 1], d) +
      if DigestOf(hash, c) != d || c.clusterCheck || c.instances == [] || c.metricsExcluded then []
      else seq(|o.load(c)|, i requires 0 <= i < |o.load(c)| => o.load(c)[i].id)
  }

  /** Scheduling remembers each of them under the digest of its configuration, after what was remembered there. */
  lemma {:induction false} ScheduleRemembers(hash: string -> Digest, m: map<Digest, seq<CheckId>>, o: Oracle, configs: seq<Config>, d: Digest)
    ensures IdsOf(Noted(hash, m, o, configs), d) == IdsOf(m, d) + IdsFor(hash, o, configs, d)
  {
    if configs != [] {
      var front, c := configs[..|configs| - 1], configs[|configs| - 1];
      ScheduleRemembers(hash, m, o, front, d);
      LoadedExactly(o, c);
      assert IdsOf(m, d) + IdsFor(hash, o, front, d) + [] == IdsOf(m, d) + IdsFor(hash, o, front, d);
    }
  }

  // ----- what stops -----

  /** One of the stops of this id, numbered from `from`, succeeds at every stage. */
  ghost predicate SomeStop(o: Oracle, ids: seq<CheckId>, from: nat, id: CheckId) {
    exists j: nat :: j < |ids| && ids[j] == id && o.stop(from + j).canceled && o.stop(from + j).runnerStopped && o.stop(from + j).checkCanceled
  }

  lemma SomeStopMore(o: Oracle, ids: seq<CheckId>, from: nat, id: CheckId)
    requires ids != []
    ensures var n: nat, out := |ids| - 1, o.stop(from + (|ids| - 1));
            SomeStop(o, ids, from, id) <==> SomeStop(o, ids[..n], from, id) || (ids[n] == id && out.canceled && out.runnerStopped && out.checkCanceled)
  {
    var n: nat := |ids| - 1;
    assert forall j: nat :: j < n ==> ids[..n][j] == ids[j];
  }

  /** A check stops exactly when one of the stops of its id succeeds; the others run on, and so does everything if the collector is stopped. */
  lemma {:induction false} StopsExactly(s: State, o: Oracle, ids: seq<CheckId>, from: nat, id: CheckId)
    ensures var (after, stopped) := StopAll(s, o, ids, from);
            && (id in stopped <==> id in s.running && s.started && SomeStop(o, ids, from, id))
            && (id in after.running <==> id in s.running && id !in stopped)
            && (id in after.running ==> after.running[id] == s.running[id])
            && after.started == s.started && after.configToChecks == s.configToChecks
  {
    if ids != [] {
      var n := |ids| - 1;
      StopsExactly(s, o, ids[..n], from, id);
      SomeStopMore(o, ids, from, id);
    }
  }

  /** Unscheduling a configuration keeps under its digest the ids that did not stop, each as often and in order, and no other list changes. */
  lemma UnscheduleForgets(hash: string -> Digest, s: State, o: Oracle, c: Config, from: nat)
    ensures var s', d := UnscheduledOne(hash, s, o, c, from), DigestOf(hash, c);
            if c.clusterCheck || c.instances == [] || c.metricsExcluded then s' == s
            else
              var (after, stopped) := StopAll(s, o, IdsOf(s.configToChecks, d), from);
              && s'.running == after.running && s'.started == s.started
              && IdsOf(s'.configToChecks, d) == Without(IdsOf(s.configToChecks, d), stopped)
              && forall e :: e != d ==> IdsOf(s'.configToChecks, e) == IdsOf(s.configToChecks, e)
  {
    var d := DigestOf(hash, c);
    var ids := IdsOf(s.configToChecks, d);
    StopAllFacts(s, o, ids, from);
    UnscheduleKeepsFailed(s.configToChecks, d, StopAll(s, o, ids, from).1);
  }

  lemma WithoutInTurn(ids: seq<CheckId>, id: CheckId, stopped: set<CheckId>)
    ensures Without([], stopped) == []
    ensures Without(ids + [id], stopped) == Without(ids, stopped) + if id in stopped then [] else [id]
  {
    assert (ids + [id])[..|ids|] == ids;
  }

  /** The stops of one call are numbered one after the other, over all its configurations in turn. */
  lemma UnscheduledInTurn(hash: string -> Digest, s: State, o: Oracle, configs: seq<Config>, c: Config)
    ensures Unscheduled(hash, s, o, []) == (s, 0)
    ensures var (before, count) := Unscheduled(hash, s, o, configs);
            Unscheduled(hash, s, o, configs + [c]) ==
            (UnscheduledOne(hash, before, o, c, count),
             count + if c.clusterCheck || c.instances == [] || c.metricsExcluded then 0 else |IdsOf(before.configToChecks, DigestOf(hash, c))|)
  {
    assert (configs + [c])[..|configs|] == configs;
  }
}
