/** pkg/autodiscovery/autoconfig.go and store.go: the handlers, proved equal to the steps of AutoConfigRuns. */
module AutoConfig {
  import opened Integration
  import opened Wrappers
  import CP = ConfigPoller
  import D = Decryption
  import TC = TemplateCache
  import M = AutoConfigRuns

  /** What the registered schedulers are told. A service itself is announced with a configuration of its own. */
  datatype Event =
    | Schedule(configs: seq<Config>)
    | Unschedule(configs: seq<Config>)
    | ScheduleService(entity: M.Entity)
    | UnscheduleService(entity: M.Entity)

  /** The configurations by digest, once these are added; the last one of a digest holds. */
  function WithAll(hash: string -> Digest, held: map<Digest, Config>, configs: seq<Config>): map<Digest, Config> {
    if configs == [] then held
    else
      var n := |configs| - 1;
      WithAll(hash, held, configs[..n])[DigestOf(hash, configs[n]) := configs[n]]
  }

  function Told(hash: string -> Digest, held: map<Digest, Config>, e: Event): map<Digest, Config> {
    if e.Schedule? then WithAll(hash, held, e.configs)
    else if e.Unschedule? then held - CP.Digests(hash, e.configs)
    else held
  }

  /** What the schedulers hold: by digest, the configurations scheduled and not unscheduled since. */
  function Held(hash: string -> Digest, events: seq<Event>): map<Digest, Config> {
    if events == [] then map[] else Told(hash, Held(hash, events[..|events| - 1]), events[|events| - 1])
  }

  function Active(hash: string -> Digest, events: seq<Event>): set<Digest> {
    Held(hash, events).Keys
  }

  lemma {:induction false} WithAllKeys(hash: string -> Digest, held: map<Digest, Config>, configs: seq<Config>)
    ensures WithAll(hash, held, configs).Keys == held.Keys + CP.Digests(hash, configs)
  {
    if configs != [] {
      var n := |configs| - 1;
      WithAllKeys(hash, held, configs[..n]);
      CP.DigestsAppend(hash, configs[..n], configs[n]);
      assert configs == configs[..n] + [configs[n]];
    }
  }

  lemma {:induction false} WithAllMerges(hash: string -> Digest, held: map<Digest, Config>, configs: seq<Config>)
    ensures WithAll(hash, held, configs) == held + WithAll(hash, map[], configs)
  {
    if configs == [] {
      assert held + map[] == held;
    } else {
      WithAllMerges(hash, held, configs[..|configs| - 1]);
    }
  }

  lemma WithAllAppend(hash: string -> Digest, held: map<Digest, Config>, configs: seq<Config>, c: Config)
    ensures WithAll(hash, held, configs + [c]) == WithAll(hash, held, configs)[DigestOf(hash, c) := c]
  {
    assert (configs + [c])[..|configs|] == configs;
  }

  lemma HeldAppend(hash: string -> Digest, events: seq<Event>, e: Event)
    ensures Held(hash, events + [e]) == Told(hash, Held(hash, events), e)
    ensures e.Schedule? ==> Active(hash, events + [e]) == Active(hash, events) + CP.Digests(hash, e.configs)
    ensures e.Unschedule? ==> Active(hash, events + [e]) == Active(hash, events) - CP.Digests(hash, e.configs)
  {
    assert (events + [e])[..|events|] == events;
    if e.Schedule? {
      WithAllKeys(hash, Held(hash, events), e.configs);
    }
  }

  /** What trying these matches announces: each resolved configuration by itself, in order. */
  function Announcements(env: M.Env, matches: seq<M.Match>): seq<Event> {
    if matches == [] then []
    else
      var n := |matches| - 1;
      Announcements(env, matches[..n]) +
      match M.ResolvedConfig(env, matches[n].tpl, matches[n].svc)
      case Err => []
      case Ok(c) => [Schedule([c])]
  }

  /** What removing these configurations takes back: for each template everything filed under it, once. */
  function Withdrawals(hash: string -> Digest, filed: map<Digest, seq<Config>>, cs: seq<Config>): seq<Event> {
    if cs == [] then []
    else
      var n := |cs| - 1;
      Withdrawals(hash, filed, cs[..n]) +
      if !cs[n].IsTemplate() then []
      else
        var d := DigestOf(hash, cs[n]);
        [Unschedule(if d in M.TemplateDigests(hash, cs[..n]) then [] else M.ListOf(filed, d))]
  }

  class AutoConfig {
    const env: M.Env
    const templateCache: TC.Cache
    var serviceToConfigs: map<M.Entity, seq<Config>>
    var templateToConfigs: map<Digest, seq<Config>>
    var loadedConfigs: map<Digest, Config>
    var adIDToServices: map<AdId, set<M.Entity>>
    var entityToService: map<M.Entity, M.Service>
    var events: seq<Event>
    ghost var plain: set<Digest>

    ghost function View(): M.State
      reads this, templateCache
    {
      M.State(serviceToConfigs, templateToConfigs, loadedConfigs, adIDToServices, entityToService,
              templateCache.View(), Active(env.hash, events), plain)
    }

    ghost predicate Valid() {
      templateCache.hash == env.hash
    }

    /** The schedulers hold exactly the loaded configurations: under each digest, the very value that is loaded. */
    ghost predicate Announced()
      reads this
    {
      Held(env.hash, events) == loadedConfigs
    }

    constructor (env: M.Env)
      ensures this.env == env && Valid() && View() == M.INITIAL && Announced() && events == [] && fresh(templateCache)
    {
      this.env := env;
      templateCache := new TC.Cache(env.hash);
      serviceToConfigs, templateToConfigs, loadedConfigs := map[], map[], map[];
      adIDToServices, entityToService, events, plain := map[], map[], [], {};
    }

    method ScheduleConfigs(configs: seq<Config>)
      modifies this`events
      ensures View() == old(View()).(active := old(View()).active + CP.Digests(env.hash, configs))
      ensures events == old(events) + [Schedule(configs)]
      ensures Held(env.hash, events) == WithAll(env.hash, old(Held(env.hash, events)), configs)
    {
      HeldAppend(env.hash, events, Schedule(configs));
      events := events + [Schedule(configs)];
    }

    method ProcessRemovedConfigs(configs: seq<Config>)
      modifies this`events, this`loadedConfigs, this`plain
      ensures View() == M.Removed(env, old(View()), configs)
      ensures events == old(events) + [Unschedule(configs)] && (old(Announced()) ==> Announced())
    {
      HeldAppend(env.hash, events, Unschedule(configs));
      events := events + [Unschedule(configs)];
      ghost var loaded := loadedConfigs;
      for n := 0 to |configs|
        invariant events == old(events) + [Unschedule(configs)] && plain == old(plain)
        invariant loadedConfigs == loaded - CP.Digests(env.hash, configs[..n])
      {
        CP.DigestsAppend(env.hash, configs[..n], configs[n]);
        assert configs[..n + 1] == configs[..n] + [configs[n]];
        loadedConfigs := loadedConfigs - {DigestOf(env.hash, configs[n])};
      }
      assert configs[..|configs|] == configs;
      plain := plain - CP.Digests(env.hash, configs);
    }

    method ResolveTemplateForService(tpl: Config, svc: M.Service) returns (r: Result<Config>)
      modifies this`loadedConfigs, this`serviceToConfigs, this`templateToConfigs
      ensures r == M.ResolvedConfig(env, tpl, svc)
      ensures View() == M.Loaded(env, old(View()), tpl, svc)
    {
      var config := env.resolve(tpl, svc);
      if config.Err? {
        return Err;
      }
      // The resolver copied the instances of the template.
      var instances := new string[|config.value.instances|](i requires 0 <= i < |config.value.instances| => config.value.instances[i]);
      assert instances[..] == config.value.instances;
      r := D.DecryptConfig(env.secrets, config.value, instances);
      if r.Ok? {
        loadedConfigs := loadedConfigs[DigestOf(env.hash, r.value) := r.value];
        serviceToConfigs := M.AddedFor(serviceToConfigs, svc.entity, r.value);
        templateToConfigs := M.AddedFor(templateToConfigs, DigestOf(env.hash, tpl), r.value);
      }
    }

    method ProcessDelService(svc: M.Service)
      modifies this`entityToService, this`serviceToConfigs, this`events, this`loadedConfigs, this`plain
      ensures View() == M.DelService(env, old(View()), svc.entity)
      ensures events == old(events) + [Unschedule(M.ListOf(old(serviceToConfigs), svc.entity)), UnscheduleService(svc.entity)]
      ensures old(Announced()) ==> Announced()
    {
      entityToService := entityToService - {svc.entity};
      var configs := M.ListOf(serviceToConfigs, svc.entity);
      serviceToConfigs := serviceToConfigs - {svc.entity};
      ProcessRemovedConfigs(configs);
      HeldAppend(env.hash, events, UnscheduleService(svc.entity));
      events := events + [UnscheduleService(svc.entity)];
    }

    method RemoveConfigTemplates(configs: seq<Config>)
      requires Valid()
      modifies this, templateCache
      ensures View() == M.RemovedTemplates(env, old(View()), configs)
      ensures events == old(events) + Withdrawals(env.hash, old(templateToConfigs), configs) && (old(Announced()) ==> Announced())
    {
      ghost var s := View();
      for n := 0 to |configs|
        invariant View() == M.RemovedTemplates(env, s, configs[..n])
        invariant events == old(events) + Withdrawals(env.hash, old(templateToConfigs), configs[..n])
        invariant old(Announced()) ==> Announced()
      {
        assert configs[..n + 1][..n] == configs[..n];
        M.RemovedTemplatesAre(env, s, configs[..n]);
        RemoveConfigTemplate(configs[n]);
      }
      assert configs[..|configs|] == configs;
    }

    method RemoveConfigTemplate(c: Config)
      requires Valid()
      modifies this, templateCache
      ensures View() == M.RemovedTemplate(env, old(View()), c)
      ensures events == old(events) + if c.IsTemplate() then [Unschedule(M.ListOf(old(templateToConfigs), DigestOf(env.hash, c)))] else []
      ensures old(Announced()) ==> Announced()
    {
      if c.IsTemplate() {
        var tplDigest := DigestOf(env.hash, c);
        var configs := M.ListOf(templateToConfigs, tplDigest);
        templateToConfigs := templateToConfigs - {tplDigest};
        ProcessRemovedConfigs(configs);
        var _ := templateCache.Del(c);
      }
    }

    /** The templates of all identifiers; registers the service under each identifier on the way. */
    method TemplatesOf(ids: seq<AdId>, entity: M.Entity) returns (templates: seq<Config>)
      modifies this`adIDToServices
      ensures templates == M.TemplatesFor(templateCache.View(), ids)
      ensures View() == old(View()).(adIDToServices := M.Registered(old(adIDToServices), ids, entity))
    {
      templates := [];
      for n := 0 to |ids|
        invariant adIDToServices == M.Registered(old(adIDToServices), ids[..n], entity)
        invariant templates == M.TemplatesFor(templateCache.View(), ids[..n])
      {
        assert ids[..n + 1][..n] == ids[..n];
        var id := ids[n];
        adIDToServices := adIDToServices[id := (if id in adIDToServices then adIDToServices[id] else {}) + {entity}];
        var tpls := templateCache.Get(id);
        if tpls.Ok? {
          templates := templates + tpls.value;
        } else {
          assert TC.Found(templateCache.View(), id) == [];
        }
      }
      assert ids[..|ids|] == ids;
    }

    method ProcessNewService(svc: M.Service)
      modifies this
      ensures View() == M.NewService(env, old(View()), svc)
      ensures events == old(events) +
                match svc.adIdentifiers
                case Err => []
                case Ok(ids) => Announcements(env, M.MatchAll(M.TemplatesFor(old(templateCache.View()), ids), svc)) + [ScheduleService(svc.entity)]
      ensures old(Announced()) ==> Announced()
    {
      entityToService := entityToService[svc.entity := svc];
      if svc.adIdentifiers.Err? {
        return;
      }
      var templates := TemplatesOf(svc.adIdentifiers.value, svc.entity);
      TryTemplates(templates, svc);
      HeldAppend(env.hash, events, ScheduleService(svc.entity));
      events := events + [ScheduleService(svc.entity)];
    }

    /** Each template is resolved for the service, and what it resolves to is scheduled. */
    method TryTemplates(templates: seq<Config>, svc: M.Service)
      modifies this
      ensures View() == M.Resolved(env, old(View()), M.MatchAll(templates, svc))
      ensures events == old(events) + Announcements(env, M.MatchAll(templates, svc)) && (old(Announced()) ==> Announced())
    {
      ghost var s, matches := View(), M.MatchAll(templates, svc);
      for n := 0 to |templates|
        invariant Tried(env, s, old(events), matches, n, View(), events) && (old(Announced()) ==> Announced())
      {
        TriedNext(env, s, old(events), matches, n, View(), events);
        ResolveAndSchedule(templates[n], svc);
      }
      assert matches[..|templates|] == matches;
    }

    method ResolveAndSchedule(tpl: Config, svc: M.Service)
      modifies this
      ensures View() == var after := M.Loaded(env, old(View()), tpl, svc);
                        after.(active := after.active + M.ResolvedDigests(env, tpl, svc))
      ensures events == old(events) + match M.ResolvedConfig(env, tpl, svc) case Err => [] case Ok(c) => [Schedule([c])]
      ensures old(Announced()) ==> Announced()
    {
      var r := ResolveTemplateForService(tpl, svc);
      if r.Ok? {
        M.DigestsOne(env.hash, r.value);
        WithAllAppend(env.hash, Held(env.hash, events), [], r.value);
        assert [] + [r.value] == [r.value];
        ScheduleConfigs([r.value]);
      }
    }

    /** The values of the deduplication map, in any order. */
    method ValuesOf(resolvedSet: map<Digest, Config>) returns (resolved: seq<Config>)
      requires Keyed(env.hash, resolvedSet)
      ensures WithAll(env.hash, map[], resolved) == resolvedSet && |resolved| == |resolvedSet|
    {
      resolved := [];
      var todo := resolvedSet.Keys;
      while todo != {}
        invariant todo <= resolvedSet.Keys
        invariant WithAll(env.hash, map[], resolved) == resolvedSet - todo && |resolved| == |resolvedSet.Keys| - |todo|
        decreases |todo|
      {
        var d := Pick(todo);
        WithAllAppend(env.hash, map[], resolved, resolvedSet[d]);
        resolved := resolved + [resolvedSet[d]];
        todo := todo - {d};
      }
    }

    method ResolveInto(tpl: Config, svc: M.Service, resolvedSet: map<Digest, Config>) returns (resolvedSet': map<Digest, Config>)
      requires Keyed(env.hash, resolvedSet)
      modifies this`loadedConfigs, this`serviceToConfigs, this`templateToConfigs
      ensures Keyed(env.hash, resolvedSet')
      ensures resolvedSet' == match M.ResolvedConfig(env, tpl, svc) case Err => resolvedSet case Ok(c) => resolvedSet[DigestOf(env.hash, c) := c]
      ensures View() == M.Loaded(env, old(View()), tpl, svc)
    {
      resolvedSet' := resolvedSet;
      var r := ResolveTemplateForService(tpl, svc);
      if r.Ok? {
        resolvedSet' := resolvedSet'[DigestOf(env.hash, r.value) := r.value];
      }
    }

    /** One service of an identifier, if it is still registered. */
    method ResolveForEntity(tpl: Config, serviceID: M.Entity, resolvedSet: map<Digest, Config>, ghost s: M.State, ghost visits: seq<M.Entity>)
      returns (resolvedSet': map<Digest, Config>)
      requires Keyed(env.hash, resolvedSet) && Visited(env, s, View(), tpl, visits, resolvedSet)
      modifies this`loadedConfigs, this`serviceToConfigs, this`templateToConfigs
      ensures Keyed(env.hash, resolvedSet') && Visited(env, s, View(), tpl, visits + [serviceID], resolvedSet')
    {
      ghost var now := View();
      VisitedMore(env, s, now, tpl, visits, resolvedSet, serviceID);
      if serviceID !in entityToService {
        return resolvedSet;
      }
      var svc := entityToService[serviceID];
      resolvedSet' := ResolveInto(tpl, svc, resolvedSet);
    }

    /** The services of one identifier, in any order. */
    method ResolveForId(tpl: Config, id: AdId, resolvedSet: map<Digest, Config>, ghost s: M.State, ghost visits: seq<M.Entity>)
      returns (resolvedSet': map<Digest, Config>, ghost more: seq<M.Entity>)
      requires Keyed(env.hash, resolvedSet) && Visited(env, s, View(), tpl, visits, resolvedSet)
      modifies this`loadedConfigs, this`serviceToConfigs, this`templateToConfigs
      ensures Keyed(env.hash, resolvedSet') && Visited(env, s, View(), tpl, visits + more, resolvedSet')
      ensures M.ListsServices(s, id, more)
    {
      VisitedSame(env, s, View(), tpl, visits, resolvedSet);
      resolvedSet', more := resolvedSet, [];
      assert visits + [] == visits;
      var serviceIds: set<M.Entity> := if id in adIDToServices then adIDToServices[id] else {};
      var todo := serviceIds;
      while todo != {}
        invariant todo <= serviceIds && Enumerates(more, serviceIds - todo)
        invariant Keyed(env.hash, resolvedSet') && Visited(env, s, View(), tpl, visits + more, resolvedSet')
        decreases |todo|
      {
        var serviceID := Pick(todo);
        EnumeratesMore(visits, more, serviceIds, todo, serviceID);
        resolvedSet' := ResolveForEntity(tpl, serviceID, resolvedSet', s, visits + more);
        more := more + [serviceID];
        todo := todo - {serviceID};
      }
      assert serviceIds - {} == serviceIds;
    }

    method ResolveTemplate(tpl: Config) returns (resolved: seq<Config>, ghost visits: seq<M.Entity>)
      modifies this`loadedConfigs, this`serviceToConfigs, this`templateToConfigs
      ensures M.Visits(old(View()), tpl.adIdentifiers, visits)
      ensures Visited(env, old(View()), View(), tpl, visits, WithAll(env.hash, map[], resolved))
      ensures |resolved| == |WithAll(env.hash, map[], resolved)|
    {
      ghost var s := View();
      var resolvedSet: map<Digest, Config> := map[];
      visits := [];
      var ids := tpl.adIdentifiers;
      for n := 0 to |ids|
        invariant Keyed(env.hash, resolvedSet) && Visited(env, s, View(), tpl, visits, resolvedSet)
        invariant M.Visits(s, ids[..n], visits)
      {
        ghost var more;
        resolvedSet, more := ResolveForId(tpl, ids[n], resolvedSet, s, visits);
        VisitsMore(s, ids, n, visits, more);
        visits := visits + more;
      }
      assert ids[..|ids|] == ids;
      resolved := ValuesOf(resolvedSet);
    }

    method StoreAndResolve(config: Config) returns (configs: seq<Config>, ghost visits: seq<M.Entity>)
      requires Valid()
      modifies this`loadedConfigs, this`serviceToConfigs, this`templateToConfigs, templateCache
      ensures M.Visits(old(View()), config.adIdentifiers, visits)
      ensures var s := old(View()).(cache := TC.Stored(env.hash, old(View()).cache, config));
              Visited(env, s, View(), config, visits, WithAll(env.hash, map[], configs))
      ensures |configs| == |WithAll(env.hash, map[], configs)|
    {
      ghost var s := View();
      var _ := templateCache.Set(config);
      SameVisits(s, View(), config.adIdentifiers);
      configs, visits := ResolveTemplate(config);
    }

    /** The instances are decrypted in place, where the provider's list holds them too. */
    method LoadStatic(config: Config, instances: array<string>) returns (configs: seq<Config>)
      requires instances[..] == config.instances
      modifies this`loadedConfigs, this`plain, instances
      ensures View().(active := old(View()).active + CP.Digests(env.hash, configs)) ==
                match D.Decrypted(env.secrets, config)
                case Err => old(View())
                case Ok(c) => var d, s := DigestOf(env.hash, c), old(View());
                              s.(loadedConfigs := s.loadedConfigs[d := c], active := s.active + {d}, plain := s.plain + {d})
      ensures View().active == old(View()).active
      ensures configs == match D.Decrypted(env.secrets, config) case Err => [] case Ok(c) => [c]
      ensures instances[..] == D.InstancesAfter(env.secrets, config)
    {
      var decrypted := D.DecryptConfig(env.secrets, config, instances);
      if decrypted.Err? {
        configs := [];
        assert CP.Digests(env.hash, configs) == {};
        return;
      }
      configs := [decrypted.value];
      M.DigestsOne(env.hash, decrypted.value);
      loadedConfigs := loadedConfigs[DigestOf(env.hash, decrypted.value) := decrypted.value];
      plain := plain + {DigestOf(env.hash, decrypted.value)};
    }

    /** The returned configurations are still to be scheduled: what the matches resolve to, or the decrypted configuration. */
    method ProcessNewConfig(held: CP.Held) returns (configs: seq<Config>, ghost visits: seq<M.Entity>)
      requires Valid()
      modifies this, templateCache, held.instances
      ensures var raw := old(CP.ValueOf(held));
              && (raw.IsTemplate() ==> M.Visits(old(View()), raw.adIdentifiers, visits))
              && View().(active := old(View()).active + CP.Digests(env.hash, configs)) == M.NewConfig(env, old(View()), raw, visits)
              && CP.ValueOf(held) == M.Kept(env, raw)
      ensures View().active == old(View()).active
      ensures loadedConfigs == WithAll(env.hash, old(loadedConfigs), configs) && events == old(events)
      ensures Returned(env, old(View()), old(CP.ValueOf(held)), visits, configs)
    {
      var raw := CP.ValueOf(held);
      var config := M.WithMetrics(env, raw);
      if config.IsTemplate() {
        configs, visits := StoreAndResolve(config);
        NewTemplate(env, old(View()), View(), raw, visits, configs);
      } else {
        visits := [];
        configs := LoadStatic(config, held.instances);
        OneOrNone(env.hash, old(loadedConfigs), configs);
      }
    }

    /** `processNewConfig` as a poll uses it: what it returns is scheduled. */
    method AddConfig(held: CP.Held) returns (configs: seq<Config>, ghost visits: seq<M.Entity>)
      requires Valid()
      modifies this, templateCache, held.instances
      ensures var raw := old(CP.ValueOf(held));
              && (raw.IsTemplate() ==> M.Visits(old(View()), raw.adIdentifiers, visits))
              && View() == M.NewConfig(env, old(View()), raw, visits)
              && CP.ValueOf(held) == M.Kept(env, raw)
      ensures events == old(events) + [Schedule(configs)] && Returned(env, old(View()), old(CP.ValueOf(held)), visits, configs)
      ensures old(Announced()) ==> Announced()
    {
      configs, visits := ProcessNewConfig(held);
      ScheduleConfigs(configs);
    }
  }

  ghost predicate Keyed(hash: string -> Digest, m: map<Digest, Config>) {
    forall d :: d in m ==> DigestOf(hash, m[d]) == d
  }

  /** The store after trying `visits` in order, with what they resolve to collected but not scheduled. */
  ghost predicate Visited(env: M.Env, s: M.State, now: M.State, tpl: Config, visits: seq<M.Entity>, resolved: map<Digest, Config>) {
    && now.(active := s.active + resolved.Keys) == M.Resolved(env, s, M.Known(s, tpl, visits))
    && now.active == s.active && resolved == M.ResolvedMap(env, M.Known(s, tpl, visits))
  }

  lemma {:induction false} TriedMore(env: M.Env, s: M.State, now: M.State, matches: seq<M.Match>, m: M.Match, resolved: map<Digest, Config>)
    requires now.(active := s.active + resolved.Keys) == M.Resolved(env, s, matches) && now.active == s.active
    ensures M.Loaded(env, now, m.tpl, m.svc).(active := s.active + (resolved.Keys + M.ResolvedDigests(env, m.tpl, m.svc)))
         == M.Resolved(env, s, matches + [m])
    ensures M.Loaded(env, now, m.tpl, m.svc).active == s.active
  {
    assert (matches + [m])[..|matches|] == matches;
    assert s.active + resolved.Keys + M.ResolvedDigests(env, m.tpl, m.svc) == s.active + (resolved.Keys + M.ResolvedDigests(env, m.tpl, m.svc));
  }

  /** The store and the announcements after the first n matches. */
  ghost predicate Tried(env: M.Env, s: M.State, before: seq<Event>, matches: seq<M.Match>, n: nat, now: M.State, events: seq<Event>) {
    n <= |matches| && now == M.Resolved(env, s, matches[..n]) && events == before + Announcements(env, matches[..n])
  }

  lemma {:induction false} TriedNext(env: M.Env, s: M.State, before: seq<Event>, matches: seq<M.Match>, n: nat, now: M.State, events: seq<Event>)
    requires n < |matches| && Tried(env, s, before, matches, n, now, events)
    ensures var m, after := matches[n], M.Loaded(env, now, matches[n].tpl, matches[n].svc);
            Tried(env, s, before, matches, n + 1, after.(active := after.active + M.ResolvedDigests(env, m.tpl, m.svc)),
                  events + match M.ResolvedConfig(env, m.tpl, m.svc) case Err => [] case Ok(c) => [Schedule([c])])
  {
    assert matches[..n + 1][..n] == matches[..n];
  }

  lemma {:induction false} MappedMore(env: M.Env, matches: seq<M.Match>, m: M.Match)
    ensures var more := M.ResolvedMap(env, matches + [m]);
            && more == (match M.ResolvedConfig(env, m.tpl, m.svc)
                        case Err => M.ResolvedMap(env, matches)
                        case Ok(c) => M.ResolvedMap(env, matches)[DigestOf(env.hash, c) := c])
            && more.Keys == M.ResolvedMap(env, matches).Keys + M.ResolvedDigests(env, m.tpl, m.svc)
  {
    assert (matches + [m])[..|matches|] == matches;
  }

  lemma {:induction false} VisitedMore(env: M.Env, s: M.State, now: M.State, tpl: Config, visits: seq<M.Entity>, resolved: map<Digest, Config>, e: M.Entity)
    requires Visited(env, s, now, tpl, visits, resolved)
    ensures now.entityToService == s.entityToService
    ensures e in s.entityToService ==>
              Visited(env, s, M.Loaded(env, now, tpl, s.entityToService[e]), tpl, visits + [e],
                      match M.ResolvedConfig(env, tpl, s.entityToService[e]) case Err => resolved case Ok(c) => resolved[DigestOf(env.hash, c) := c])
    ensures e !in s.entityToService ==> Visited(env, s, now, tpl, visits + [e], resolved)
  {
    var known := M.Known(s, tpl, visits);
    M.ResolvedSameServices(env, s, known);
    assert (visits + [e])[..|visits|] == visits;
    if e in s.entityToService {
      var m := M.Match(tpl, s.entityToService[e]);
      TriedMore(env, s, now, known, m, resolved);
      MappedMore(env, known, m);
    } else {
      assert known + [] == known;
    }
  }

  /** What `processNewConfig` returns: for a template one configuration per digest that its matches resolve to, the last one. */
  ghost predicate Returned(env: M.Env, s: M.State, raw: Config, visits: seq<M.Entity>, configs: seq<Config>) {
    var c := M.WithMetrics(env, raw);
    if raw.IsTemplate() then
      && WithAll(env.hash, map[], configs) == M.ResolvedMap(env, M.Known(s, c, visits))
      && |configs| == |M.ResolvedMap(env, M.Known(s, c, visits))|
    else configs == match D.Decrypted(env.secrets, c) case Err => [] case Ok(plain) => [plain]
  }

  lemma {:induction false} VisitedState(env: M.Env, s: M.State, now: M.State, raw: Config, visits: seq<M.Entity>, resolved: map<Digest, Config>)
    requires raw.IsTemplate()
    requires var c := M.WithMetrics(env, raw); Visited(env, s.(cache := TC.Stored(env.hash, s.cache, c)), now, c, visits, resolved)
    ensures now.(active := s.active + resolved.Keys) == M.NewConfig(env, s, raw, visits) && now.active == s.active
    ensures resolved == M.ResolvedMap(env, M.Known(s, M.WithMetrics(env, raw), visits))
  {
    var c := M.WithMetrics(env, raw);
    M.KnownSame(s, s.(cache := TC.Stored(env.hash, s.cache, c)), c, visits);
  }

  lemma {:induction false} NewLoaded(env: M.Env, s: M.State, raw: Config, visits: seq<M.Entity>)
    requires raw.IsTemplate()
    ensures M.NewConfig(env, s, raw, visits).loadedConfigs == s.loadedConfigs + M.ResolvedMap(env, M.Known(s, M.WithMetrics(env, raw), visits))
  {
    var c := M.WithMetrics(env, raw);
    M.ResolvedLoads(env, s.(cache := TC.Stored(env.hash, s.cache, c)), M.Known(s, c, visits));
  }

  lemma {:induction false} NewTemplate(env: M.Env, s: M.State, now: M.State, raw: Config, visits: seq<M.Entity>, configs: seq<Config>)
    requires raw.IsTemplate() && |configs| == |WithAll(env.hash, map[], configs)|
    requires var c := M.WithMetrics(env, raw);
             Visited(env, s.(cache := TC.Stored(env.hash, s.cache, c)), now, c, visits, WithAll(env.hash, map[], configs))
    ensures now.(active := s.active + CP.Digests(env.hash, configs)) == M.NewConfig(env, s, raw, visits) && now.active == s.active
    ensures now.loadedConfigs == WithAll(env.hash, s.loadedConfigs, configs) && Returned(env, s, raw, visits, configs)
  {
    VisitedState(env, s, now, raw, visits, WithAll(env.hash, map[], configs));
    NewLoaded(env, s, raw, visits);
    WithAllKeys(env.hash, map[], configs);
    WithAllMerges(env.hash, s.loadedConfigs, configs);
  }

  lemma OneOrNone(hash: string -> Digest, held: map<Digest, Config>, configs: seq<Config>)
    requires |configs| <= 1
    ensures WithAll(hash, held, configs) == if configs == [] then held else held[DigestOf(hash, configs[0]) := configs[0]]
  {}

  lemma VisitedSame(env: M.Env, s: M.State, now: M.State, tpl: Config, visits: seq<M.Entity>, resolved: map<Digest, Config>)
    requires Visited(env, s, now, tpl, visits, resolved)
    ensures now.adIDToServices == s.adIDToServices && now.entityToService == s.entityToService
  {
    M.ResolvedSameServices(env, s, M.Known(s, tpl, visits));
  }

  ghost predicate Enumerates(list: seq<M.Entity>, all: set<M.Entity>) {
    && (forall i, j :: 0 <= i < j < |list| ==> list[i] != list[j])
    && (forall e :: e in list <==> e in all)
  }

  lemma EnumeratesMore(visits: seq<M.Entity>, list: seq<M.Entity>, all: set<M.Entity>, todo: set<M.Entity>, e: M.Entity)
    requires Enumerates(list, all - todo) && todo <= all && e in todo
    ensures Enumerates(list + [e], all - (todo - {e}))
    ensures visits + (list + [e]) == visits + list + [e]
  {
    assert all - (todo - {e}) == all - todo + {e};
  }

  lemma VisitsMore(s: M.State, ids: seq<AdId>, n: nat, visits: seq<M.Entity>, more: seq<M.Entity>)
    requires n < |ids| && M.Visits(s, ids[..n], visits) && M.ListsServices(s, ids[n], more)
    ensures M.Visits(s, ids[..n + 1], visits + more)
  {
    assert ids[..n + 1][..n] == ids[..n];
    assert (visits + more)[..|visits|] == visits && (visits + more)[|visits|..] == more;
  }

  lemma {:induction false} SameVisits(s: M.State, t: M.State, ids: seq<AdId>)
    requires s.adIDToServices == t.adIDToServices
    ensures forall visits :: M.Visits(t, ids, visits) ==> M.Visits(s, ids, visits)
  {
    if ids != [] {
      SameVisits(s, t, ids[..|ids| - 1]);
      forall visits | M.Visits(t, ids, visits)
        ensures M.Visits(s, ids, visits)
      {
        var n :| 0 <= n <= |visits| && M.Visits(t, ids[..|ids| - 1], visits[..n]) && M.ListsServices(t, ids[|ids| - 1], visits[n..]);
        assert M.Visits(s, ids[..|ids| - 1], visits[..n]) && M.ListsServices(s, ids[|ids| - 1], visits[n..]);
      }
    }
  }
}
