/**
 pkg/collector/scheduler.go and collector.go as a state machine: which checks run, and which the
 scheduler remembers for each configuration. Main results: RunRemembers, UnscheduleKeepsFailed,
 AllStopped, InstancesIff.
 */
module CheckRuns {
  import opened Integration

  datatype CheckId = CheckId(name: string)

  datatype Check = Check(id: CheckId, longRunning: bool)

  /** What may go wrong in `StopCheck` after the check was found. */
  datatype StopOutcome = StopOutcome(canceled: bool, runnerStopped: bool, checkCanceled: bool)

  /** What the outside decides during one call: the loaders, the queue, and each stop in turn. */
  datatype Oracle = Oracle(load: Config -> seq<Check>, enter: Check -> bool, stop: nat -> StopOutcome)

  datatype State = State(
    configToChecks: map<Digest, seq<CheckId>>,
    running: map<CheckId, Check>,
    instances: int,
    started: bool)

  const INITIAL := State(map[], map[], 0, true)

  function IdsOf(m: map<Digest, seq<CheckId>>, d: Digest): seq<CheckId> {
    if d in m then m[d] else []
  }

  // ----- the collector -----

  predicate Runs(s: State, o: Oracle, c: Check) {
    s.started && c.id !in s.running && o.enter(c)
  }

  function RunOne(s: State, o: Oracle, c: Check): State {
    if Runs(s, o, c) then s.(running := s.running[c.id := c], instances := s.instances + 1) else s
  }

  predicate Stops(s: State, id: CheckId, out: StopOutcome) {
    s.started && id in s.running && out.canceled && out.runnerStopped && out.checkCanceled
  }

  function StopOne(s: State, id: CheckId, out: StopOutcome): State {
    if Stops(s, id, out) then s.(running := s.running - {id}) else s
  }

  // ----- scheduling -----

  /** Configurations without checks of their own, excluded ones, and ones that load nothing are skipped. */
  predicate Skipped(c: Config) {
    !c.IsCheckConfig() || c.metricsExcluded
  }

  function LoadedChecks(o: Oracle, c: Config): seq<Check> {
    if Skipped(c) then [] else o.load(c)
  }

  function Ids(checks: seq<Check>): seq<CheckId> {
    seq(|checks|, i requires 0 <= i < |checks| => checks[i].id)
  }

  function AllChecks(o: Oracle, configs: seq<Config>): seq<Check> {
    if configs == [] then [] else AllChecks(o, configs[..|configs| - 1]) + LoadedChecks(o, configs[|configs| - 1])
  }

  /** The ids of every loaded check are remembered under the digest of its configuration. */
  function Noted(hash: string -> Digest, m: map<Digest, seq<CheckId>>, o: Oracle, configs: seq<Config>): map<Digest, seq<CheckId>> {
    if configs == [] then m
    else
      var before, c := Noted(hash, m, o, configs[..|configs| - 1]), configs[|configs| - 1];
      var checks := LoadedChecks(o, c);
      if checks == [] then before else before[DigestOf(hash, c) := IdsOf(before, DigestOf(hash, c)) + Ids(checks)]
  }

  function RunAll(s: State, o: Oracle, checks: seq<Check>): State {
    if checks == [] then s else RunOne(RunAll(s, o, checks[..|checks| - 1]), o, checks[|checks| - 1])
  }

  function Scheduled(hash: string -> Digest, s: State, o: Oracle, configs: seq<Config>): State {
    RunAll(s.(configToChecks := Noted(hash, s.configToChecks, o, configs)), o, AllChecks(o, configs))
  }

  // ----- unscheduling -----

  /** The state after the stops of one list, and the ids that stopped; `from` numbers the first stop. */
  function StopAll(s: State, o: Oracle, ids: seq<CheckId>, from: nat): (State, set<CheckId>) {
    if ids == [] then (s, {})
    else
      var n := |ids| - 1;
      var (before, stopped) := StopAll(s, o, ids[..n], from);
      var out := o.stop(from + n);
      (StopOne(before, ids[n], out), if Stops(before, ids[n], out) then stopped + {ids[n]} else stopped)
  }

  function Without(ids: seq<CheckId>, stopped: set<CheckId>): seq<CheckId> {
    if ids == [] then []
    else
      var n := |ids| - 1;
      Without(ids[..n], stopped) + if ids[n] in stopped then [] else [ids[n]]
  }

  /** The length test of the source decides between forgetting the entry and keeping the dangling ids. */
  function Forgotten(m: map<Digest, seq<CheckId>>, d: Digest, stopped: set<CheckId>): map<Digest, seq<CheckId>> {
    var ids := IdsOf(m, d);
    if |stopped| == |ids| then m - {d} else m[d := Without(ids, stopped)]
  }

  function UnscheduledOne(hash: string -> Digest, s: State, o: Oracle, c: Config, from: nat): State {
    if Skipped(c) then s
    else
      var d := DigestOf(hash, c);
      var (after, stopped) := StopAll(s, o, IdsOf(s.configToChecks, d), from);
      after.(configToChecks := Forgotten(s.configToChecks, d, stopped))
  }

  /** How many stops one configuration causes. */
  function StopCount(hash: string -> Digest, s: State, c: Config): nat {
    if Skipped(c) then 0 else |IdsOf(s.configToChecks, DigestOf(hash, c))|
  }

  function Unscheduled(hash: string -> Digest, s: State, o: Oracle, configs: seq<Config>): (State, nat) {
    if configs == [] then (s, 0)
    else
      var n := |configs| - 1;
      var (before, count) := Unscheduled(hash, s, o, configs[..n]);
      (UnscheduledOne(hash, before, o, configs[n], count), count + StopCount(hash, before, configs[n]))
  }

  // ----- the length test -----

  function SetOf(ids: seq<CheckId>): set<CheckId> {
    set id | id in ids
  }

  lemma {:induction false} SetOfSize(ids: seq<CheckId>)
    ensures |SetOf(ids)| <= |ids|
  {
    if ids != [] {
      var n := |ids| - 1;
      SetOfSize(ids[..n]);
      assert ids == ids[..n] + [ids[n]];
      assert SetOf(ids) == SetOf(ids[..n]) + {ids[n]};
    }
  }

  lemma SubsetSize(a: set<CheckId>, b: set<CheckId>)
    requires a <= b
    ensures |a| <= |b|
    ensures |a| == |b| ==> a == b
  {
    if a != b {
      var x :| x in b && x !in a;
      SubsetSizeStrict(a, b, x);
    }
  }

  lemma SubsetSizeStrict(a: set<CheckId>, b: set<CheckId>, x: CheckId)
    requires a <= b && x in b && x !in a
    ensures |a| < |b|
  {
    var rest := b - a;
    assert b == a + rest && a !! rest && x in rest;
    assert |b| == |a| + |rest|;
  }

  lemma {:induction false} StopAllFacts(s: State, o: Oracle, ids: seq<CheckId>, from: nat)
    ensures var (after, stopped) := StopAll(s, o, ids, from);
            && stopped <= SetOf(ids) && stopped <= s.running.Keys
            && after == s.(running := s.running - stopped)
  {
    if ids != [] {
      var n := |ids| - 1;
      StopAllFacts(s, o, ids[..n], from);
      var (before, stopped) := StopAll(s, o, ids[..n], from);
      assert ids == ids[..n] + [ids[n]];
      assert s.running - stopped - {ids[n]} == s.running - (stopped + {ids[n]});
    }
  }

  lemma {:induction false} WithoutFacts(ids: seq<CheckId>, stopped: set<CheckId>)
    ensures forall id :: id in Without(ids, stopped) <==> id in ids && id !in stopped
    ensures SetOf(ids) <= stopped ==> Without(ids, stopped) == []
  {
    if ids != [] {
      var n := |ids| - 1;
      WithoutFacts(ids[..n], stopped);
      assert ids == ids[..n] + [ids[n]];
    }
  }

  /**
   Comparing the number of stopped ids with the length of the list is sound, duplicates included:
   what is remembered afterwards is exactly the ids that failed to stop.
   */
  lemma UnscheduleKeepsFailed(m: map<Digest, seq<CheckId>>, d: Digest, stopped: set<CheckId>)
    requires stopped <= SetOf(IdsOf(m, d))
    ensures IdsOf(Forgotten(m, d, stopped), d) == Without(IdsOf(m, d), stopped)
    ensures forall e :: e != d ==> IdsOf(Forgotten(m, d, stopped), e) == IdsOf(m, e)
  {
    var ids := IdsOf(m, d);
    WithoutFacts(ids, stopped);
    if |stopped| == |ids| {
      SetOfSize(ids);
      SubsetSize(stopped, SetOf(ids));
    }
  }

  // ----- no running check is forgotten -----

  ghost predicate Remembers(s: State) {
    forall id {:trigger id in s.running} :: id in s.running ==> exists d :: id in IdsOf(s.configToChecks, d)
  }

  lemma {:induction false} NotedKeeps(hash: string -> Digest, m: map<Digest, seq<CheckId>>, o: Oracle, configs: seq<Config>)
    ensures forall d, id :: id in IdsOf(m, d) ==> id in IdsOf(Noted(hash, m, o, configs), d)
    ensures forall c :: c in AllChecks(o, configs) ==> exists d :: c.id in IdsOf(Noted(hash, m, o, configs), d)
  {
    if configs != [] {
      var front, c := configs[..|configs| - 1], configs[|configs| - 1];
      NotedKeeps(hash, m, o, front);
      var before, after, checks := Noted(hash, m, o, front), Noted(hash, m, o, configs), LoadedChecks(o, c);
      var d := DigestOf(hash, c);
      assert forall e, id :: id in IdsOf(before, e) ==> id in IdsOf(after, e);
      forall k | k in AllChecks(o, configs)
        ensures exists e :: k.id in IdsOf(after, e)
      {
        if k in AllChecks(o, front) {
          var e :| k.id in IdsOf(before, e);
          assert k.id in IdsOf(after, e);
        } else {
          var i :| 0 <= i < |checks| && checks[i] == k;
          assert Ids(checks)[i] == k.id;
          assert k.id in IdsOf(after, d);
        }
      }
    }
  }

  lemma {:induction false} RunAllFacts(s: State, o: Oracle, checks: seq<Check>)
    ensures RunAll(s, o, checks).configToChecks == s.configToChecks && RunAll(s, o, checks).started == s.started
    ensures forall id :: id in RunAll(s, o, checks).running ==> id in s.running || exists c :: c in checks && c.id == id
    ensures RunAll(s, o, checks).instances - |RunAll(s, o, checks).running| == s.instances - |s.running|
  {
    if checks != [] {
      var n := |checks| - 1;
      RunAllFacts(s, o, checks[..n]);
      var s' := RunAll(s, o, checks);
      forall id | id in s'.running && id !in s.running
        ensures exists c :: c in checks && c.id == id
      {
        if id == checks[n].id {
          assert checks[n] in checks;
        } else {
          var c :| c in checks[..n] && c.id == id;
          assert c in checks;
        }
      }
    }
  }

  lemma ScheduledRemembers(hash: string -> Digest, s: State, o: Oracle, configs: seq<Config>)
    requires Remembers(s)
    ensures Remembers(Scheduled(hash, s, o, configs))
  {
    NotedKeeps(hash, s.configToChecks, o, configs);
    var s1 := s.(configToChecks := Noted(hash, s.configToChecks, o, configs));
    RunAllFacts(s1, o, AllChecks(o, configs));
    var s' := Scheduled(hash, s, o, configs);
    forall id | id in s'.running
      ensures exists d :: id in IdsOf(s'.configToChecks, d)
    {
      if id in s.running {
        var d :| id in IdsOf(s.configToChecks, d);
        assert id in IdsOf(s'.configToChecks, d);
      } else {
        var c :| c in AllChecks(o, configs) && c.id == id;
      }
    }
  }

  lemma UnscheduledOneRemembers(hash: string -> Digest, s: State, o: Oracle, c: Config, from: nat)
    requires Remembers(s)
    ensures Remembers(UnscheduledOne(hash, s, o, c, from))
  {
    if !Skipped(c) {
      var d := DigestOf(hash, c);
      var ids := IdsOf(s.configToChecks, d);
      var (after, stopped) := StopAll(s, o, ids, from);
      StopAllFacts(s, o, ids, from);
      UnscheduleKeepsFailed(s.configToChecks, d, stopped);
      WithoutFacts(ids, stopped);
      var s' := UnscheduledOne(hash, s, o, c, from);
      forall id | id in s'.running
        ensures exists e :: id in IdsOf(s'.configToChecks, e)
      {
        assert id in s.running && id !in stopped;
        var e :| id in IdsOf(s.configToChecks, e);
        assert id in IdsOf(s'.configToChecks, e);
      }
    }
  }

  lemma {:induction false} UnscheduledRemembers(hash: string -> Digest, s: State, o: Oracle, configs: seq<Config>)
    requires Remembers(s)
    ensures Remembers(Unscheduled(hash, s, o, configs).0)
  {
    if configs != [] {
      var n := |configs| - 1;
      UnscheduledRemembers(hash, s, o, configs[..n]);
      var (before, count) := Unscheduled(hash, s, o, configs[..n]);
      UnscheduledOneRemembers(hash, before, o, configs[n], count);
    }
  }

  // ----- runs -----

  datatype Op =
    | Schedule(configs: seq<Config>, o: Oracle)
    | Unschedule(configs: seq<Config>, o: Oracle)
    | Halt

  function Step(hash: string -> Digest, s: State, op: Op): State {
    match op
    case Schedule(configs, o) => Scheduled(hash, s, o, configs)
    case Unschedule(configs, o) => Unscheduled(hash, s, o, configs).0
    case Halt => s.(started := false)
  }

  function Run(hash: string -> Digest, ops: seq<Op>): State {
    if ops == [] then INITIAL else Step(hash, Run(hash, ops[..|ops| - 1]), ops[|ops| - 1])
  }

  /** In every run, whatever loads, starts or fails to stop, each running check is remembered for some configuration. */
  lemma {:induction false} RunRemembers(hash: string -> Digest, ops: seq<Op>)
    ensures Remembers(Run(hash, ops))
  {
    if ops != [] {
      RunRemembers(hash, ops[..|ops| - 1]);
      var s := Run(hash, ops[..|ops| - 1]);
      match ops[|ops| - 1]
      case Schedule(configs, o) => ScheduledRemembers(hash, s, o, configs);
      case Unschedule(configs, o) => UnscheduledRemembers(hash, s, o, configs);
      case Halt =>
    }
  }

  // ----- everything can be stopped -----

  ghost predicate AllSucceed(o: Oracle) {
    forall i: nat {:trigger o.stop(i)} :: o.stop(i) == StopOutcome(true, true, true)
  }

  lemma {:induction false} StopAllStops(s: State, o: Oracle, ids: seq<CheckId>, from: nat)
    requires s.started && AllSucceed(o)
    ensures StopAll(s, o, ids, from).1 == SetOf(ids) * s.running.Keys
  {
    if ids != [] {
      var n := |ids| - 1;
      StopAllStops(s, o, ids[..n], from);
      StopAllFacts(s, o, ids[..n], from);
      assert ids == ids[..n] + [ids[n]];
      assert SetOf(ids) == SetOf(ids[..n]) + {ids[n]};
    }
  }

  /** After an unschedule whose stops succeed, nothing remembered under its configurations runs, and nothing new does. */
  lemma {:induction false} UnscheduledStops(hash: string -> Digest, s: State, o: Oracle, configs: seq<Config>)
    requires s.started && AllSucceed(o)
    ensures var s' := Unscheduled(hash, s, o, configs).0;
            && s'.started && s'.running.Keys <= s.running.Keys
            && forall c, id :: c in configs && !Skipped(c) && id in IdsOf(s.configToChecks, DigestOf(hash, c)) ==> id !in s'.running
    ensures var s' := Unscheduled(hash, s, o, configs).0;
            forall d, id :: id in IdsOf(s.configToChecks, d) && id in s'.running ==> id in IdsOf(s'.configToChecks, d)
  {
    if configs != [] {
      var n := |configs| - 1;
      var front, c := configs[..n], configs[n];
      UnscheduledStops(hash, s, o, front);
      var (before, count) := Unscheduled(hash, s, o, front);
      assert configs == front + [c];
      if !Skipped(c) {
        var d := DigestOf(hash, c);
        var ids := IdsOf(before.configToChecks, d);
        var (after, stopped) := StopAll(before, o, ids, count);
        StopAllFacts(before, o, ids, count);
        StopAllStops(before, o, ids, count);
        UnscheduleKeepsFailed(before.configToChecks, d, stopped);
        WithoutFacts(ids, stopped);
      }
    }
  }

  /** Unscheduling every remembered configuration, with stops that succeed, leaves no check running. */
  lemma AllStopped(hash: string -> Digest, ops: seq<Op>, o: Oracle, configs: seq<Config>)
    requires Run(hash, ops).started && AllSucceed(o)
    requires forall d :: d in Run(hash, ops).configToChecks ==> exists c :: c in configs && !Skipped(c) && DigestOf(hash, c) == d
    ensures Run(hash, ops + [Unschedule(configs, o)]).running == map[]
  {
    var s := Run(hash, ops);
    RunRemembers(hash, ops);
    UnscheduledStops(hash, s, o, configs);
    assert (ops + [Unschedule(configs, o)])[..|ops|] == ops;
    var s' := Run(hash, ops + [Unschedule(configs, o)]);
    forall id | id in s.running
      ensures id !in s'.running
    {
      var d :| id in IdsOf(s.configToChecks, d);
      assert d in s.configToChecks;
    }
    assert s'.running.Keys == {};
  }

  // ----- the instance counter -----

  /** How many of these calls to `StopCheck` succeed. */
  function StopsAmong(s: State, o: Oracle, ids: seq<CheckId>, from: nat): nat {
    if ids == [] then 0
    else
      var n := |ids| - 1;
      StopsAmong(s, o, ids[..n], from) + if Stops(StopAll(s, o, ids[..n], from).0, ids[n], o.stop(from + n)) then 1 else 0
  }

  /** How many succeed while these configurations are unscheduled. */
  function StopsFor(hash: string -> Digest, s: State, o: Oracle, configs: seq<Config>): nat {
    if configs == [] then 0
    else
      var n := |configs| - 1;
      var (before, count) := Unscheduled(hash, s, o, configs[..n]);
      StopsFor(hash, s, o, configs[..n]) +
      if Skipped(configs[n]) then 0 else StopsAmong(before, o, IdsOf(before.configToChecks, DigestOf(hash, configs[n])), count)
  }

  /** How many succeed in the run. */
  function StopsIn(hash: string -> Digest, ops: seq<Op>): nat {
    if ops == [] then 0
    else
      var front, op := ops[..|ops| - 1], ops[|ops| - 1];
      StopsIn(hash, front) + if op.Unschedule? then StopsFor(hash, Run(hash, front), op.o, op.configs) else 0
  }

  lemma {:induction false} StopsAmongCounts(s: State, o: Oracle, ids: seq<CheckId>, from: nat)
    ensures var after := StopAll(s, o, ids, from).0;
            |s.running| == |after.running| + StopsAmong(s, o, ids, from) && after.instances == s.instances
  {
    if ids != [] {
      var n := |ids| - 1;
      StopsAmongCounts(s, o, ids[..n], from);
      var before := StopAll(s, o, ids[..n], from).0;
      if Stops(before, ids[n], o.stop(from + n)) {
        assert before.running.Keys == (before.running - {ids[n]}).Keys + {ids[n]};
        assert |before.running.Keys| == |(before.running - {ids[n]}).Keys| + 1;
      }
    }
  }

  lemma {:induction false} StopsForCounts(hash: string -> Digest, s: State, o: Oracle, configs: seq<Config>)
    ensures var after := Unscheduled(hash, s, o, configs).0;
            |s.running| == |after.running| + StopsFor(hash, s, o, configs) && after.instances == s.instances
  {
    if configs != [] {
      var n := |configs| - 1;
      StopsForCounts(hash, s, o, configs[..n]);
      var (before, count) := Unscheduled(hash, s, o, configs[..n]);
      StopsAmongCounts(before, o, IdsOf(before.configToChecks, DigestOf(hash, configs[n])), count);
    }
  }

  /**
   The counter that sizes the worker pool is never lowered: it exceeds the number of running checks
   by the number of successful stops, so it is right exactly while no stop has succeeded.
   */
  lemma {:induction false} InstancesIff(hash: string -> Digest, ops: seq<Op>)
    ensures Run(hash, ops).instances == |Run(hash, ops).running| + StopsIn(hash, ops)
    ensures Run(hash, ops).instances == |Run(hash, ops).running| <==> StopsIn(hash, ops) == 0
  {
    if ops != [] {
      InstancesIff(hash, ops[..|ops| - 1]);
      var s := Run(hash, ops[..|ops| - 1]);
      match ops[|ops| - 1]
      case Schedule(configs, o) =>
        RunAllFacts(s.(configToChecks := Noted(hash, s.configToChecks, o, configs)), o, AllChecks(o, configs));
      case Unschedule(configs, o) => StopsForCounts(hash, s, o, configs);
      case Halt =>
    }
  }

  /** Every configuration loads this check, and every start and stop succeeds. */
  function OracleOf(check: Check): Oracle {
    Oracle(_ => [check], _ => true, _ => StopOutcome(true, true, true))
  }

  /** One check scheduled and unscheduled: nothing runs, and the counter still says one. */
  lemma StoppedStillCounted(hash: string -> Digest, check: Check, c: Config)
    requires !Skipped(c)
    ensures var s := Run(hash, [Schedule([c], OracleOf(check)), Unschedule([c], OracleOf(check))]);
            s.running == map[] && s.instances == 1
  {
    var o := OracleOf(check);
    var ops := [Schedule([c], o), Unschedule([c], o)];
    var one := ops[..1];
    assert one == [Schedule([c], o)] && one[..0] == [];
    OneScheduled(hash, o, c, check);
    assert Run(hash, one) == Scheduled(hash, INITIAL, o, [c]);
    OneUnscheduled(hash, o, c, check);
  }

  lemma OneUnscheduled(hash: string -> Digest, o: Oracle, c: Config, check: Check)
    requires !Skipped(c) && o.stop(0) == StopOutcome(true, true, true)
    ensures var s := State(map[DigestOf(hash, c) := [check.id]], map[check.id := check], 1, true);
            Unscheduled(hash, s, o, [c]).0.running == map[] && Unscheduled(hash, s, o, [c]).0.instances == 1
  {
    var s := State(map[DigestOf(hash, c) := [check.id]], map[check.id := check], 1, true);
    assert [c][..0] == [] && [c][0] == c;
    assert Unscheduled(hash, s, o, [c][..0]) == (s, 0);
    assert [check.id][..0] == [] && [check.id][0] == check.id;
    assert StopAll(s, o, [check.id][..0], 0) == (s, {});
  }

  lemma OneScheduled(hash: string -> Digest, o: Oracle, c: Config, check: Check)
    requires !Skipped(c) && o.load(c) == [check] && o.enter(check)
    ensures Scheduled(hash, INITIAL, o, [c]) == State(map[DigestOf(hash, c) := [check.id]], map[check.id := check], 1, true)
  {
    assert [c][..0] == [] && [c][0] == c;
    assert AllChecks(o, [c]) == [check] by {
      assert AllChecks(o, [c][..0]) == [];
    }
    assert Ids([check]) == [check.id] && [] + [check.id] == [check.id];
    assert Noted(hash, map[], o, [c]) == map[DigestOf(hash, c) := [check.id]] by {
      assert Noted(hash, map[], o, [c][..0]) == map[];
    }
    assert [check][..0] == [] && [check][0] == check;
    var s := INITIAL.(configToChecks := map[DigestOf(hash, c) := [check.id]]);
    assert RunAll(s, o, [check][..0]) == s;
  }
}
