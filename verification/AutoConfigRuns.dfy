/**
 pkg/autodiscovery/autoconfig.go and store.go as a state machine: services, templates and
 configurations come and go in any order. Main results: RunCovered, NoServiceNoneLoaded.
 */
module AutoConfigRuns {
  import opened Integration
  import opened Wrappers
  import opened ConfigPoller
  import D = Decryption
  import TC = TemplateCache

  datatype Entity = Entity(name: string)

  /** A service; `adIdentifiers` may fail. `data` is whatever else template resolution reads. */
  datatype Service = Service(entity: Entity, adIdentifiers: Result<seq<AdId>>, data: string)

  /**
   What the handlers call: configresolver.Resolve, the decryption of one piece of data, and the
   init_config that a JMX check gets from its metrics file (the unchanged one for any other check).
   */
  datatype Env = Env(
    hash: string -> Digest,
    resolve: (Config, Service) -> Result<Config>,
    secrets: D.Secrets,
    initConfig: Config -> string)

  /**
   `active` holds the digests given to the schedulers and not taken back since; `plain` the digests
   loaded from a configuration that is not a template and not removed since.
   */
  datatype State = State(
    serviceToConfigs: map<Entity, seq<Config>>,
    templateToConfigs: map<Digest, seq<Config>>,
    loadedConfigs: map<Digest, Config>,
    adIDToServices: map<AdId, set<Entity>>,
    entityToService: map<Entity, Service>,
    cache: TC.State,
    active: set<Digest>,
    plain: set<Digest>)

  const INITIAL := State(map[], map[], map[], map[], map[], TC.INITIAL, {}, {})

  function ListOf<K>(m: map<K, seq<Config>>, k: K): seq<Config> {
    if k in m then m[k] else []
  }

  function AddedFor<K>(m: map<K, seq<Config>>, k: K, c: Config): map<K, seq<Config>> {
    m[k := ListOf(m, k) + [c]]
  }

  // ----- resolving templates -----

  function ResolvedConfig(env: Env, tpl: Config, svc: Service): Result<Config> {
    match env.resolve(tpl, svc)
    case Err => Err
    case Ok(c) => D.Decrypted(env.secrets, c)
  }

  /** `resolveTemplateForService`, without the scheduling of its result. */
  function Loaded(env: Env, s: State, tpl: Config, svc: Service): State {
    match ResolvedConfig(env, tpl, svc)
    case Err => s
    case Ok(c) =>
      s.(loadedConfigs := s.loadedConfigs[DigestOf(env.hash, c) := c],
         serviceToConfigs := AddedFor(s.serviceToConfigs, svc.entity, c),
         templateToConfigs := AddedFor(s.templateToConfigs, DigestOf(env.hash, tpl), c))
  }

  function ResolvedDigests(env: Env, tpl: Config, svc: Service): set<Digest> {
    match ResolvedConfig(env, tpl, svc)
    case Err => {}
    case Ok(c) => {DigestOf(env.hash, c)}
  }

  datatype Match = Match(tpl: Config, svc: Service)

  /** Every match is tried in order; what resolves is loaded and scheduled. */
  function Resolved(env: Env, s: State, matches: seq<Match>): State {
    if matches == [] then s
    else
      var before, m := Resolved(env, s, matches[..|matches| - 1]), matches[|matches| - 1];
      var after := Loaded(env, before, m.tpl, m.svc);
      after.(active := after.active + ResolvedDigests(env, m.tpl, m.svc))
  }

  /** What the matches resolve to, by digest; the last one holds. */
  function ResolvedMap(env: Env, matches: seq<Match>): map<Digest, Config> {
    if matches == [] then map[]
    else
      var before, m := ResolvedMap(env, matches[..|matches| - 1]), matches[|matches| - 1];
      match ResolvedConfig(env, m.tpl, m.svc)
      case Err => before
      case Ok(c) => before[DigestOf(env.hash, c) := c]
  }

  lemma MergedMore(loaded: map<Digest, Config>, more: map<Digest, Config>, active: set<Digest>, d: Digest, c: Config)
    ensures (loaded + more)[d := c] == loaded + more[d := c]
    ensures active + more.Keys + {d} == active + more[d := c].Keys
  {}

  lemma {:induction false} ResolvedLoads(env: Env, s: State, matches: seq<Match>)
    ensures Resolved(env, s, matches).loadedConfigs == s.loadedConfigs + ResolvedMap(env, matches)
    ensures Resolved(env, s, matches).active == s.active + ResolvedMap(env, matches).Keys
  {
    if matches == [] {
      assert s.loadedConfigs + map[] == s.loadedConfigs;
    } else {
      var front, m := matches[..|matches| - 1], matches[|matches| - 1];
      var before, more := Resolved(env, s, front), ResolvedMap(env, front);
      ResolvedLoads(env, s, front);
      match ResolvedConfig(env, m.tpl, m.svc)
      case Err =>
        assert Resolved(env, s, matches).active == before.active + {};
      case Ok(c) =>
        MergedMore(s.loadedConfigs, more, s.active, DigestOf(env.hash, c), c);
        assert Resolved(env, s, matches).active == before.active + {DigestOf(env.hash, c)};
    }
  }

  // ----- handlers -----

  function Registered(index: map<AdId, set<Entity>>, ids: seq<AdId>, e: Entity): map<AdId, set<Entity>> {
    if ids == [] then index
    else
      var before, id := Registered(index, ids[..|ids| - 1], e), ids[|ids| - 1];
      before[id := (if id in before then before[id] else {}) + {e}]
  }

  function TemplatesFor(cache: TC.State, ids: seq<AdId>): seq<Config> {
    if ids == [] then [] else TemplatesFor(cache, ids[..|ids| - 1]) + TC.Found(cache, ids[|ids| - 1])
  }

  function MatchAll(tpls: seq<Config>, svc: Service): seq<Match> {
    seq(|tpls|, i requires 0 <= i < |tpls| => Match(tpls[i], svc))
  }

  function NewService(env: Env, s: State, svc: Service): State {
    var s1 := s.(entityToService := s.entityToService[svc.entity := svc]);
    match svc.adIdentifiers
    case Err => s1
    case Ok(ids) =>
      Resolved(env, s1.(adIDToServices := Registered(s.adIDToServices, ids, svc.entity)), MatchAll(TemplatesFor(s.cache, ids), svc))
  }

  /** `processRemovedConfigs`: unscheduled and unloaded by digest. */
  function Removed(env: Env, s: State, configs: seq<Config>): State {
    var ds := Digests(env.hash, configs);
    s.(loadedConfigs := s.loadedConfigs - ds, active := s.active - ds, plain := s.plain - ds)
  }

  function DelService(env: Env, s: State, e: Entity): State {
    Removed(env, s.(entityToService := s.entityToService - {e}, serviceToConfigs := s.serviceToConfigs - {e}),
            ListOf(s.serviceToConfigs, e))
  }

  function RemovedTemplate(env: Env, s: State, c: Config): State {
    if !c.IsTemplate() then s
    else
      var d := DigestOf(env.hash, c);
      var s1 := Removed(env, s.(templateToConfigs := s.templateToConfigs - {d}), ListOf(s.templateToConfigs, d));
      s1.(cache := TC.Deleted(env.hash, s.cache, c))
  }

  /** The configuration with the metrics of its JMX file. */
  function WithMetrics(env: Env, c: Config): Config {
    c.(initConfig := env.initConfig(c))
  }

  /** What processing leaves of a new configuration in the provider's list: decryption writes the shared instances. */
  function Kept(env: Env, raw: Config): Config {
    if raw.IsTemplate() then raw else raw.(instances := D.InstancesAfter(env.secrets, WithMetrics(env, raw)))
  }

  /** The services a new template is tried on: each identifier's services, in any order. */
  function Known(s: State, tpl: Config, visits: seq<Entity>): seq<Match> {
    if visits == [] then []
    else
      var e := visits[|visits| - 1];
      Known(s, tpl, visits[..|visits| - 1]) + if e in s.entityToService then [Match(tpl, s.entityToService[e])] else []
  }

  /** `processNewConfig` and the scheduling of what it returns. */
  function NewConfig(env: Env, s: State, raw: Config, visits: seq<Entity>): State {
    var c := WithMetrics(env, raw);
    if c.IsTemplate() then
      Resolved(env, s.(cache := TC.Stored(env.hash, s.cache, c)), Known(s, c, visits))
    else
      match D.Decrypted(env.secrets, c)
      case Err => s
      case Ok(c') =>
        var d := DigestOf(env.hash, c');
        s.(loadedConfigs := s.loadedConfigs[d := c'], active := s.active + {d}, plain := s.plain + {d})
  }

  /** `visits` lists the services of each identifier of the template, identifier by identifier. */
  ghost predicate Visits(s: State, ids: seq<AdId>, visits: seq<Entity>)
    decreases |ids|
  {
    if ids == [] then visits == []
    else
      exists n :: 0 <= n <= |visits| && Visits(s, ids[..|ids| - 1], visits[..n])
                  && ListsServices(s, ids[|ids| - 1], visits[n..])
  }

  ghost predicate ListsServices(s: State, id: AdId, visits: seq<Entity>) {
    && (forall i, j :: 0 <= i < j < |visits| ==> visits[i] != visits[j])
    && (forall e :: e in visits <==> id in s.adIDToServices && e in s.adIDToServices[id])
  }

  // ----- what every event keeps -----

  ghost predicate Listed<K(!new)>(hash: string -> Digest, m: map<K, seq<Config>>, d: Digest) {
    exists k :: k in m && d in Digests(hash, m[k])
  }

  /**
   Every loaded configuration is plain, or listed under a service and under a template;
   the listed services are registered; and the schedulers hold exactly what is loaded.
   */
  ghost predicate Covered(env: Env, s: State) {
    && (forall d {:trigger d in s.loadedConfigs} :: d in s.loadedConfigs && d !in s.plain ==>
          Listed(env.hash, s.serviceToConfigs, d) && Listed(env.hash, s.templateToConfigs, d))
    && s.serviceToConfigs.Keys <= s.entityToService.Keys
    && (forall e {:trigger e in s.entityToService} :: e in s.entityToService ==> s.entityToService[e].entity == e)
    && s.active == s.loadedConfigs.Keys
  }

  lemma ListedAdd<K(!new)>(hash: string -> Digest, m: map<K, seq<Config>>, k: K, c: Config)
    ensures Listed(hash, AddedFor(m, k, c), DigestOf(hash, c))
    ensures forall d :: Listed(hash, m, d) ==> Listed(hash, AddedFor(m, k, c), d)
  {
    DigestsAppend(hash, ListOf(m, k), c);
    var m' := AddedFor(m, k, c);
    assert k in m';
    forall d | Listed(hash, m, d)
      ensures Listed(hash, m', d)
    {
      var j :| j in m && d in Digests(hash, m[j]);
      assert j in m' && d in Digests(hash, m'[j]);
    }
  }

  lemma ListedWithout<K(!new)>(hash: string -> Digest, m: map<K, seq<Config>>, k: K, d: Digest)
    requires Listed(hash, m, d) && d !in Digests(hash, ListOf(m, k))
    ensures Listed(hash, m - {k}, d)
  {
    var j :| j in m && d in Digests(hash, m[j]);
    assert j in m - {k} && d in Digests(hash, (m - {k})[j]);
  }

  lemma LoadedKeeps(env: Env, s: State, tpl: Config, svc: Service)
    requires Covered(env, s) && svc.entity in s.entityToService
    ensures var s' := Loaded(env, s, tpl, svc);
            Covered(env, s'.(active := s'.active + ResolvedDigests(env, tpl, svc)))
  {
    match ResolvedConfig(env, tpl, svc)
    case Err =>
      assert s.active + {} == s.active;
    case Ok(c) =>
      ListedAdd(env.hash, s.serviceToConfigs, svc.entity, c);
      ListedAdd(env.hash, s.templateToConfigs, DigestOf(env.hash, tpl), c);
  }

  lemma {:induction false} ResolvedKeeps(env: Env, s: State, matches: seq<Match>)
    requires Covered(env, s) && forall m :: m in matches ==> m.svc.entity in s.entityToService
    ensures Covered(env, Resolved(env, s, matches))
    ensures Resolved(env, s, matches).entityToService == s.entityToService && Resolved(env, s, matches).cache == s.cache
  {
    if matches != [] {
      var before, m := matches[..|matches| - 1], matches[|matches| - 1];
      ResolvedKeeps(env, s, before);
      assert m in matches;
      LoadedKeeps(env, Resolved(env, s, before), m.tpl, m.svc);
    }
  }

  lemma {:induction false} ResolvedSameServices(env: Env, s: State, matches: seq<Match>)
    ensures Resolved(env, s, matches).entityToService == s.entityToService
    ensures Resolved(env, s, matches).adIDToServices == s.adIDToServices
  {
    if matches != [] {
      ResolvedSameServices(env, s, matches[..|matches| - 1]);
    }
  }

  lemma RemovedKeeps(env: Env, s: State, configs: seq<Config>)
    requires Covered(env, s)
    ensures Covered(env, Removed(env, s, configs))
  {}

  lemma DelServiceKeeps(env: Env, s: State, e: Entity)
    requires Covered(env, s)
    ensures Covered(env, DelService(env, s, e))
  {
    var s' := DelService(env, s, e);
    forall d | d in s'.loadedConfigs && d !in s'.plain
      ensures Listed(env.hash, s'.serviceToConfigs, d)
    {
      assert d in s.loadedConfigs;
      ListedWithout(env.hash, s.serviceToConfigs, e, d);
    }
  }

  lemma RemovedTemplateKeeps(env: Env, s: State, c: Config)
    requires Covered(env, s)
    ensures Covered(env, RemovedTemplate(env, s, c))
  {
    var d0, s' := DigestOf(env.hash, c), RemovedTemplate(env, s, c);
    if c.IsTemplate() {
      forall d | d in s'.loadedConfigs && d !in s'.plain
        ensures Listed(env.hash, s'.templateToConfigs, d)
      {
        assert d in s.loadedConfigs;
        ListedWithout(env.hash, s.templateToConfigs, d0, d);
      }
    }
  }

  lemma NewServiceKeeps(env: Env, s: State, svc: Service)
    requires Covered(env, s)
    ensures Covered(env, NewService(env, s, svc))
  {
    if svc.adIdentifiers.Ok? {
      var ids := svc.adIdentifiers.value;
      var s1 := s.(entityToService := s.entityToService[svc.entity := svc],
                   adIDToServices := Registered(s.adIDToServices, ids, svc.entity));
      ResolvedKeeps(env, s1, MatchAll(TemplatesFor(s.cache, ids), svc));
    }
  }

  lemma {:induction false} KnownSame(s: State, t: State, tpl: Config, visits: seq<Entity>)
    requires s.entityToService == t.entityToService
    ensures Known(s, tpl, visits) == Known(t, tpl, visits)
  {
    if visits != [] {
      KnownSame(s, t, tpl, visits[..|visits| - 1]);
    }
  }

  lemma {:induction false} KnownRegistered(s: State, tpl: Config, visits: seq<Entity>)
    ensures forall m :: m in Known(s, tpl, visits) ==> m.tpl == tpl
    ensures (forall e :: e in s.entityToService ==> s.entityToService[e].entity == e) ==>
              forall m :: m in Known(s, tpl, visits) ==> m.svc.entity in s.entityToService
  {
    if visits != [] {
      KnownRegistered(s, tpl, visits[..|visits| - 1]);
    }
  }

  lemma NewConfigKeeps(env: Env, s: State, raw: Config, visits: seq<Entity>)
    requires Covered(env, s)
    ensures Covered(env, NewConfig(env, s, raw, visits))
  {
    var c := WithMetrics(env, raw);
    if c.IsTemplate() {
      KnownRegistered(s, c, visits);
      ResolvedKeeps(env, s.(cache := TC.Stored(env.hash, s.cache, c)), Known(s, c, visits));
    }
  }

  // ----- runs -----

  /** A poll is a RemoveConfigs, a RemoveTemplates and then one AddConfig for each new configuration. */
  datatype Op =
    | AddService(svc: Service)
    | RemoveService(e: Entity)
    | AddConfig(c: Config, visits: seq<Entity>)
    | RemoveConfigs(cs: seq<Config>)
    | RemoveTemplates(cs: seq<Config>)

  function RemovedTemplates(env: Env, s: State, cs: seq<Config>): State {
    if cs == [] then s else RemovedTemplate(env, RemovedTemplates(env, s, cs[..|cs| - 1]), cs[|cs| - 1])
  }

  function Step(env: Env, s: State, op: Op): State {
    match op
    case AddService(svc) => NewService(env, s, svc)
    case RemoveService(e) => DelService(env, s, e)
    case AddConfig(c, visits) => NewConfig(env, s, c, visits)
    case RemoveConfigs(cs) => Removed(env, s, cs)
    case RemoveTemplates(cs) => RemovedTemplates(env, s, cs)
  }

  function Run(env: Env, ops: seq<Op>): State {
    if ops == [] then INITIAL else Step(env, Run(env, ops[..|ops| - 1]), ops[|ops| - 1])
  }

  lemma {:induction false} RemovedTemplatesKeep(env: Env, s: State, cs: seq<Config>)
    requires Covered(env, s)
    ensures Covered(env, RemovedTemplates(env, s, cs))
  {
    if cs != [] {
      RemovedTemplatesKeep(env, s, cs[..|cs| - 1]);
      RemovedTemplateKeeps(env, RemovedTemplates(env, s, cs[..|cs| - 1]), cs[|cs| - 1]);
    }
  }

  lemma StepKeeps(env: Env, s: State, op: Op)
    requires Covered(env, s)
    ensures Covered(env, Step(env, s, op))
  {
    match op
    case AddService(svc) => NewServiceKeeps(env, s, svc);
    case RemoveService(e) => DelServiceKeeps(env, s, e);
    case AddConfig(c, visits) => NewConfigKeeps(env, s, c, visits);
    case RemoveConfigs(cs) => RemovedKeeps(env, s, cs);
    case RemoveTemplates(cs) => RemovedTemplatesKeep(env, s, cs);
  }

  /** In every run every template-resolved configuration is covered, and the schedulers hold what is loaded. */
  lemma {:induction false} RunCovered(env: Env, ops: seq<Op>)
    ensures Covered(env, Run(env, ops))
  {
    if ops != [] {
      RunCovered(env, ops[..|ops| - 1]);
      StepKeeps(env, Run(env, ops[..|ops| - 1]), ops[|ops| - 1]);
    }
  }

  /** Once every service is gone, nothing that came from a template is loaded or scheduled. */
  lemma NoServiceNoneLoaded(env: Env, ops: seq<Op>)
    requires Run(env, ops).entityToService == map[]
    ensures Run(env, ops).loadedConfigs.Keys <= Run(env, ops).plain
    ensures Run(env, ops).active <= Run(env, ops).plain
  {
    RunCovered(env, ops);
    var s := Run(env, ops);
    assert s.serviceToConfigs.Keys == {};
  }

  // ----- what removing templates takes out -----

  /** The digests filed under templates. */
  function FiledUnder(env: Env, s: State, cs: seq<Config>): set<Digest> {
    if cs == [] then {}
    else
      var c := cs[|cs| - 1];
      FiledUnder(env, s, cs[..|cs| - 1]) +
      if c.IsTemplate() then Digests(env.hash, ListOf(s.templateToConfigs, DigestOf(env.hash, c))) else {}
  }

  function TemplateDigests(hash: string -> Digest, cs: seq<Config>): set<Digest> {
    set i | 0 <= i < |cs| && cs[i].IsTemplate() :: DigestOf(hash, cs[i])
  }

  lemma {:induction false} RemovedTemplatesAre(env: Env, s: State, cs: seq<Config>)
    ensures var s' := RemovedTemplates(env, s, cs);
            && s'.loadedConfigs == s.loadedConfigs - FiledUnder(env, s, cs)
            && s'.templateToConfigs == s.templateToConfigs - TemplateDigests(env.hash, cs)
            && s'.serviceToConfigs == s.serviceToConfigs
  {
    if cs == [] {
      assert s.loadedConfigs - {} == s.loadedConfigs;
      assert TemplateDigests(env.hash, cs) == {} && s.templateToConfigs - {} == s.templateToConfigs;
    } else {
      var n := |cs| - 1;
      RemovedTemplatesAre(env, s, cs[..n]);
      TemplateDigestsMore(env.hash, cs);
      var before, d := RemovedTemplates(env, s, cs[..n]), DigestOf(env.hash, cs[n]);
      var gone, more := FiledUnder(env, s, cs[..n]), Digests(env.hash, ListOf(s.templateToConfigs, d));
      if cs[n].IsTemplate() {
        if d in TemplateDigests(env.hash, cs[..n]) {
          FiledUnderHas(env, s, cs[..n], d);
          assert Digests(env.hash, []) == {} && gone + more == gone;
          assert s.loadedConfigs - gone - {} == s.loadedConfigs - (gone + more);
        } else {
          assert s.loadedConfigs - gone - more == s.loadedConfigs - (gone + more);
        }
        var dropped := TemplateDigests(env.hash, cs[..n]);
        assert s.templateToConfigs - dropped - {d} == s.templateToConfigs - (dropped + {d});
      } else {
        assert gone + {} == gone;
      }
    }
  }

  lemma TemplateDigestsMore(hash: string -> Digest, cs: seq<Config>)
    requires cs != []
    ensures var n := |cs| - 1;
            TemplateDigests(hash, cs) ==
            TemplateDigests(hash, cs[..n]) + if cs[n].IsTemplate() then {DigestOf(hash, cs[n])} else {}
  {
    var n := |cs| - 1;
    assert forall i :: 0 <= i < n ==> cs[..n][i] == cs[i];
  }

  lemma {:induction false} FiledUnderHas(env: Env, s: State, cs: seq<Config>, d: Digest)
    requires d in TemplateDigests(env.hash, cs)
    ensures Digests(env.hash, ListOf(s.templateToConfigs, d)) <= FiledUnder(env, s, cs)
  {
    var n := |cs| - 1;
    TemplateDigestsMore(env.hash, cs);
    if d in TemplateDigests(env.hash, cs[..n]) {
      FiledUnderHas(env, s, cs[..n], d);
    }
  }

  lemma RemovedTemplatesOne(env: Env, s: State, c: Config)
    ensures RemovedTemplates(env, s, [c]) == RemovedTemplate(env, s, c)
  {
    var cs := [c];
    assert cs[..0] == [] && RemovedTemplates(env, s, cs[..0]) == s;
    assert RemovedTemplates(env, s, cs) == RemovedTemplate(env, RemovedTemplates(env, s, cs[..|cs| - 1]), cs[|cs| - 1]);
  }

  lemma DigestsOne(hash: string -> Digest, c: Config)
    ensures Digests(hash, [c]) == {DigestOf(hash, c)}
  {
    assert [c][0] == c;
  }

  lemma {:induction false} ResolvedSameCache(env: Env, s: State, matches: seq<Match>)
    ensures Resolved(env, s, matches).cache == s.cache
  {
    if matches != [] {
      ResolvedSameCache(env, s, matches[..|matches| - 1]);
    }
  }

  lemma {:induction false} ResolvedSamePlain(env: Env, s: State, matches: seq<Match>)
    ensures Resolved(env, s, matches).plain == s.plain
  {
    if matches != [] {
      ResolvedSamePlain(env, s, matches[..|matches| - 1]);
    }
  }
}
