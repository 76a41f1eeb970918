/**
 The template cache inside the runs of AutoConfigRuns, with digests that may clash: what its index can
 return, and when a run without a template left has nothing loaded from one. Main result: NoTemplateNoneLoadedIff.
 */
module TemplateRuns {
  import opened Integration
  import opened Wrappers
  import CP = ConfigPoller
  import opened AutoConfigRuns
  import TC = TemplateCache

  /** What may come: the configurations that are added and removed, and the services. */
  datatype Universe = Universe(config: Config -> bool, gone: Config -> bool, service: Service -> bool)

  function Ids(svc: Service): seq<AdId> {
    if svc.adIdentifiers.Ok? then svc.adIdentifiers.value else []
  }

  /** An operation with what may come; a template is tried on the services registered at that moment. */
  ghost predicate Fits(u: Universe, s: State, op: Op) {
    match op
    case AddService(svc) => u.service(svc)
    case RemoveService(_) => true
    case AddConfig(c, visits) => u.config(c) && (c.IsTemplate() ==> Visits(s, c.adIdentifiers, visits))
    case RemoveConfigs(cs) => forall c :: c in cs ==> u.gone(c)
    case RemoveTemplates(cs) => forall c :: c in cs ==> u.gone(c)
  }

  ghost predicate RunOf(env: Env, u: Universe, ops: seq<Op>) {
    ops == [] || (RunOf(env, u, ops[..|ops| - 1]) && Fits(u, Run(env, ops[..|ops| - 1]), ops[|ops| - 1]))
  }

  /** The states that some run leads to. */
  ghost predicate Reached(env: Env, u: Universe, s: State) {
    exists ops :: RunOf(env, u, ops) && Run(env, ops) == s
  }

  lemma ReachedFirst(env: Env, u: Universe)
    ensures Reached(env, u, INITIAL)
  {
    assert RunOf(env, u, []) && Run(env, []) == INITIAL;
  }

  lemma ReachedNext(env: Env, u: Universe, s: State, op: Op)
    requires Reached(env, u, s) && Fits(u, s, op)
    ensures Reached(env, u, Step(env, s, op))
  {
    var ops :| RunOf(env, u, ops) && Run(env, ops) == s;
    assert (ops + [op])[..|ops|] == ops;
    assert RunOf(env, u, ops + [op]);
  }

  // ----- stale entries -----

  /** Removing `g` leaves an entry for the identifier that adding `raw` made under the same digest. */
  predicate Outlives(env: Env, u: Universe, raw: Config, g: Config, id: AdId, d: Digest) {
    && u.config(raw) && raw.IsTemplate() && DigestOf(env.hash, WithMetrics(env, raw)) == d
    && u.gone(g) && g.IsTemplate() && DigestOf(env.hash, g) == d
    && multiset(g.adIdentifiers)[id] < multiset(raw.adIdentifiers)[id]
  }

  ghost predicate StaleAt(env: Env, u: Universe, id: AdId, d: Digest) {
    exists raw, g :: Outlives(env, u, raw, g, id, d)
  }

  ghost predicate Cacheable(env: Env, u: Universe, tpl: Config) {
    exists raw :: u.config(raw) && raw.IsTemplate() && tpl == WithMetrics(env, raw)
  }

  /** The index agrees with a scan wherever no entry can be stale, and the cache holds what may be added, with its metrics. */
  ghost predicate Indexed(env: Env, u: Universe, cache: TC.State) {
    && TC.Consistent(env.hash, cache)
    && (forall id, d :: !StaleAt(env, u, id, d) ==> TC.AgreesAt(cache, id, d))
    && (forall d :: d in cache.digestToTemplate ==> Cacheable(env, u, cache.digestToTemplate[d]))
  }

  lemma StoredIndexed(env: Env, u: Universe, cache: TC.State, raw: Config)
    requires Indexed(env, u, cache) && u.config(raw) && raw.IsTemplate()
    ensures Indexed(env, u, TC.Stored(env.hash, cache, WithMetrics(env, raw)))
  {
    var tpl := WithMetrics(env, raw);
    forall id, d | !StaleAt(env, u, id, d)
      ensures TC.AgreesAt(TC.Stored(env.hash, cache, tpl), id, d)
    {
      TC.StoredKeepsAt(env.hash, cache, tpl, id, d);
    }
    assert Cacheable(env, u, tpl);
    StoredFrom(env, u, cache, tpl);
  }

  lemma StoredFrom(env: Env, u: Universe, cache: TC.State, tpl: Config)
    requires TC.Consistent(env.hash, cache) && Cacheable(env, u, tpl)
    requires forall d :: d in cache.digestToTemplate ==> Cacheable(env, u, cache.digestToTemplate[d])
    ensures var after := TC.Stored(env.hash, cache, tpl);
            && TC.Consistent(env.hash, after)
            && forall d :: d in after.digestToTemplate ==> Cacheable(env, u, after.digestToTemplate[d])
  {
    var after := TC.Stored(env.hash, cache, tpl);
    forall d | d in after.digestToTemplate
      ensures DigestOf(env.hash, after.digestToTemplate[d]) == d && Cacheable(env, u, after.digestToTemplate[d])
      ensures d in after.digestToADId && after.digestToADId[d] == after.digestToTemplate[d].adIdentifiers
    {
      assert d == DigestOf(env.hash, tpl) || d in cache.digestToTemplate;
    }
  }

  lemma DeletedIndexed(env: Env, u: Universe, cache: TC.State, g: Config)
    requires Indexed(env, u, cache) && u.gone(g) && g.IsTemplate()
    ensures Indexed(env, u, TC.Deleted(env.hash, cache, g))
  {
    forall id, d | !StaleAt(env, u, id, d)
      ensures TC.AgreesAt(TC.Deleted(env.hash, cache, g), id, d)
    {
      TC.DeletedKeepsAtIff(env.hash, cache, g, id, d);
      if d == DigestOf(env.hash, g) && d in cache.digestToADId {
        var raw :| u.config(raw) && raw.IsTemplate() && cache.digestToTemplate[d] == WithMetrics(env, raw);
        assert !Outlives(env, u, raw, g, id, d);
      }
    }
  }

  lemma {:induction false} RemovedTemplatesIndexed(env: Env, u: Universe, s: State, cs: seq<Config>)
    requires Indexed(env, u, s.cache) && forall c :: c in cs ==> u.gone(c)
    ensures Indexed(env, u, RemovedTemplates(env, s, cs).cache)
  {
    if cs != [] {
      var before, c := RemovedTemplates(env, s, cs[..|cs| - 1]), cs[|cs| - 1];
      RemovedTemplatesIndexed(env, u, s, cs[..|cs| - 1]);
      if c.IsTemplate() {
        DeletedIndexed(env, u, before.cache, c);
      }
    }
  }

  lemma CacheAfter(env: Env, s: State, op: Op)
    requires op.AddService? || op.AddConfig?
    ensures Step(env, s, op).cache ==
            if op.AddConfig? && op.c.IsTemplate() then TC.Stored(env.hash, s.cache, WithMetrics(env, op.c)) else s.cache
  {
    match op
    case AddService(svc) =>
      if svc.adIdentifiers.Ok? {
        ResolvedSameCache(env, Arrived(s, svc), MatchAll(TemplatesFor(s.cache, Ids(svc)), svc));
      }
    case AddConfig(raw, visits) =>
      var tpl := WithMetrics(env, raw);
      if raw.IsTemplate() {
        ResolvedSameCache(env, s.(cache := TC.Stored(env.hash, s.cache, tpl)), Known(s, tpl, visits));
      }
  }

  lemma {:induction false} RemovedTemplatesSameServices(env: Env, s: State, cs: seq<Config>)
    ensures var s' := RemovedTemplates(env, s, cs); s'.entityToService == s.entityToService && s'.adIDToServices == s.adIDToServices
  {
    if cs != [] {
      RemovedTemplatesSameServices(env, s, cs[..|cs| - 1]);
    }
  }

  /** The state in which the templates are tried on a new service. */
  function Arrived(s: State, svc: Service): State {
    s.(entityToService := s.entityToService[svc.entity := svc], adIDToServices := Registered(s.adIDToServices, Ids(svc), svc.entity))
  }

  lemma {:induction false} RunIndexed(env: Env, u: Universe, ops: seq<Op>)
    requires RunOf(env, u, ops)
    ensures Indexed(env, u, Run(env, ops).cache)
  {
    if ops != [] {
      var s, op := Run(env, ops[..|ops| - 1]), ops[|ops| - 1];
      RunIndexed(env, u, ops[..|ops| - 1]);
      match op
      case AddService(_) => CacheAfter(env, s, op);
      case AddConfig(raw, _) =>
        CacheAfter(env, s, op);
        if raw.IsTemplate() {
          StoredIndexed(env, u, s.cache, raw);
        }
      case RemoveTemplates(cs) => RemovedTemplatesIndexed(env, u, s, cs);
      case _ =>
    }
  }

  /** What a lookup of an identifier may return: a template that names it, or what is read at a stale entry. */
  ghost predicate Findable(env: Env, u: Universe, id: AdId, tpl: Config) {
    || (Cacheable(env, u, tpl) && id in tpl.adIdentifiers)
    || exists d :: StaleAt(env, u, id, d) && (tpl == EMPTY || (Cacheable(env, u, tpl) && DigestOf(env.hash, tpl) == d))
  }

  lemma FoundIsFindable(env: Env, u: Universe, cache: TC.State, id: AdId, tpl: Config)
    requires Indexed(env, u, cache) && tpl in TC.Found(cache, id)
    ensures Findable(env, u, id, tpl)
    ensures tpl == EMPTY || DigestOf(env.hash, tpl) in cache.digestToTemplate
  {
    var list := TC.ListOf(cache.adIDToDigests, id);
    var i :| 0 <= i < |list| && TC.Found(cache, id)[i] == tpl;
    var d := list[i];
    assert d in list && multiset(list)[d] > 0;
    if StaleAt(env, u, id, d) {
    } else {
      assert TC.Uses(cache, d, id) > 0;
      assert id in cache.digestToADId[d];
    }
  }

  ghost predicate AnyFindable(env: Env, u: Universe, ids: seq<AdId>, tpl: Config) {
    exists id :: id in ids && Findable(env, u, id, tpl)
  }

  lemma {:induction false} TemplatesForFindable(env: Env, u: Universe, cache: TC.State, ids: seq<AdId>, tpl: Config)
    requires Indexed(env, u, cache) && tpl in TemplatesFor(cache, ids)
    ensures AnyFindable(env, u, ids, tpl)
    ensures tpl == EMPTY || DigestOf(env.hash, tpl) in cache.digestToTemplate
  {
    var n := |ids| - 1;
    if tpl in TC.Found(cache, ids[n]) {
      FoundIsFindable(env, u, cache, ids[n], tpl);
      assert ids[n] in ids;
    } else {
      TemplatesForFindable(env, u, cache, ids[..n], tpl);
      var id :| id in ids[..n] && Findable(env, u, id, tpl);
      assert id in ids;
    }
  }

  lemma ReachedIndexed(env: Env, u: Universe, s: State)
    requires Reached(env, u, s)
    ensures Indexed(env, u, s.cache)
  {
    var ops :| RunOf(env, u, ops) && Run(env, ops) == s;
    RunIndexed(env, u, ops);
  }

  // ----- what is resolved is filed under a cached template -----

  /** No service resolves the empty template that a stale entry gives it. */
  ghost predicate NoStaleLoad(env: Env, u: Universe) {
    forall id, d, svc :: StaleAt(env, u, id, d) && u.service(svc) && id in Ids(svc) ==> ResolvedConfig(env, EMPTY, svc).Err?
  }

  ghost predicate Filed(s: State) {
    s.templateToConfigs.Keys <= s.cache.digestToTemplate.Keys
  }

  lemma {:induction false} ResolvedFiled(env: Env, s: State, matches: seq<Match>)
    requires Filed(s)
    requires forall m :: m in matches ==> ResolvedConfig(env, m.tpl, m.svc).Err? || DigestOf(env.hash, m.tpl) in s.cache.digestToTemplate
    ensures Filed(Resolved(env, s, matches))
  {
    if matches != [] {
      var front, m := matches[..|matches| - 1], matches[|matches| - 1];
      ResolvedFiled(env, s, front);
      ResolvedSameCache(env, s, front);
      assert m in matches;
    }
  }

  lemma {:induction false} RemovedTemplatesFiled(env: Env, s: State, cs: seq<Config>)
    requires Filed(s)
    ensures Filed(RemovedTemplates(env, s, cs))
  {
    if cs != [] {
      RemovedTemplatesFiled(env, s, cs[..|cs| - 1]);
    }
  }

  lemma NewServiceFiled(env: Env, u: Universe, s: State, svc: Service)
    requires Filed(s) && Indexed(env, u, s.cache) && u.service(svc) && NoStaleLoad(env, u)
    ensures Filed(NewService(env, s, svc))
  {
    var tpls := TemplatesFor(s.cache, Ids(svc));
    forall m | m in MatchAll(tpls, svc)
      ensures ResolvedConfig(env, m.tpl, m.svc).Err? || DigestOf(env.hash, m.tpl) in s.cache.digestToTemplate
    {
      assert m.tpl in tpls && m.svc == svc;
      TemplatesForFindable(env, u, s.cache, Ids(svc), m.tpl);
      if m.tpl == EMPTY {
        EmptyIsStale(env, u, Ids(svc));
      }
    }
    if svc.adIdentifiers.Ok? {
      ResolvedFiled(env, Arrived(s, svc), MatchAll(tpls, svc));
    }
  }

  lemma EmptyIsStale(env: Env, u: Universe, ids: seq<AdId>)
    requires AnyFindable(env, u, ids, EMPTY)
    ensures exists id, d :: id in ids && StaleAt(env, u, id, d)
  {
    var id :| id in ids && Findable(env, u, id, EMPTY);
    assert EMPTY.adIdentifiers == [];
  }

  lemma NewConfigFiled(env: Env, s: State, raw: Config, visits: seq<Entity>)
    requires Filed(s) && s.cache.digestToADId.Keys == s.cache.digestToTemplate.Keys
    ensures Filed(NewConfig(env, s, raw, visits))
  {
    var tpl := WithMetrics(env, raw);
    if raw.IsTemplate() {
      KnownRegistered(s, tpl, visits);
      ResolvedFiled(env, s.(cache := TC.Stored(env.hash, s.cache, tpl)), Known(s, tpl, visits));
    }
  }

  lemma {:induction false} RunFiled(env: Env, u: Universe, ops: seq<Op>)
    requires RunOf(env, u, ops) && NoStaleLoad(env, u)
    ensures Filed(Run(env, ops))
  {
    if ops != [] {
      var s, op := Run(env, ops[..|ops| - 1]), ops[|ops| - 1];
      RunFiled(env, u, ops[..|ops| - 1]);
      RunIndexed(env, u, ops[..|ops| - 1]);
      match op
      case AddService(svc) => NewServiceFiled(env, u, s, svc);
      case AddConfig(raw, visits) => NewConfigFiled(env, s, raw, visits);
      case RemoveTemplates(cs) => RemovedTemplatesFiled(env, s, cs);
      case _ =>
    }
  }

  // ----- a stale entry, made and used -----

  /** Adding one template and removing the other leaves the digest in the index and out of the cache. */
  lemma LeavesStale(env: Env, u: Universe, cache: TC.State, raw: Config, g: Config, id: AdId, d: Digest)
    requires Outlives(env, u, raw, g, id, d) && d !in cache.digestToADId
    ensures var after := TC.Deleted(env.hash, TC.Stored(env.hash, cache, WithMetrics(env, raw)), g);
            d in TC.ListOf(after.adIDToDigests, id) && d !in after.digestToADId
  {
    var tpl := WithMetrics(env, raw);
    var stored := TC.Stored(env.hash, cache, tpl);
    TC.AppendedLists(cache.adIDToDigests, tpl.adIdentifiers, d, id);
    TC.RepeatCounts(d, multiset(tpl.adIdentifiers)[id], d);
    TC.SplicedCounts(stored.adIDToDigests, g.adIdentifiers, d, id, d);
    assert multiset(TC.ListOf(TC.Deleted(env.hash, stored, g).adIDToDigests, id))[d] > 0;
  }

  lemma {:induction false} TemplatesForHas(cache: TC.State, ids: seq<AdId>, id: AdId, d: Digest)
    requires id in ids && d in TC.ListOf(cache.adIDToDigests, id)
    ensures (if d in cache.digestToTemplate then cache.digestToTemplate[d] else EMPTY) in TemplatesFor(cache, ids)
  {
    var n := |ids| - 1;
    if ids[n] == id {
      var list := TC.ListOf(cache.adIDToDigests, id);
      var i :| 0 <= i < |list| && list[i] == d;
      assert TC.Found(cache, id)[i] in TC.Found(cache, id);
    } else {
      TemplatesForHas(cache, ids[..n], id, d);
    }
  }

  /** The digests listed under one service or one template. */
  function Under<K>(hash: string -> Digest, m: map<K, seq<Config>>, k: K): set<Digest> {
    CP.Digests(hash, ListOf(m, k))
  }

  ghost predicate Grown<K(!new)>(hash: string -> Digest, before: map<K, seq<Config>>, after: map<K, seq<Config>>) {
    forall k :: Under(hash, before, k) <= Under(hash, after, k)
  }

  lemma AddedUnder<K(!new)>(hash: string -> Digest, m: map<K, seq<Config>>, k: K, c: Config)
    ensures forall j :: Under(hash, AddedFor(m, k, c), j) == Under(hash, m, j) + if j == k then {DigestOf(hash, c)} else {}
  {
    CP.DigestsAppend(hash, ListOf(m, k), c);
  }

  ghost predicate ListedAt(env: Env, s: State, m: Match, x: Digest) {
    && x in s.loadedConfigs && x in Under(env.hash, s.serviceToConfigs, m.svc.entity)
    && x in Under(env.hash, s.templateToConfigs, DigestOf(env.hash, m.tpl))
  }

  ghost predicate Resolves(env: Env, m: Match, x: Digest) {
    ResolvedConfig(env, m.tpl, m.svc).Ok? && DigestOf(env.hash, ResolvedConfig(env, m.tpl, m.svc).value) == x
  }

  lemma LoadedGrows(env: Env, s: State, m: Match)
    ensures var s' := Loaded(env, s, m.tpl, m.svc);
            && s.loadedConfigs.Keys <= s'.loadedConfigs.Keys
            && Grown(env.hash, s.serviceToConfigs, s'.serviceToConfigs) && Grown(env.hash, s.templateToConfigs, s'.templateToConfigs)
            && forall x :: Resolves(env, m, x) ==> ListedAt(env, s', m, x)
  {
    match ResolvedConfig(env, m.tpl, m.svc)
    case Err =>
    case Ok(c) =>
      AddedUnder(env.hash, s.serviceToConfigs, m.svc.entity, c);
      AddedUnder(env.hash, s.templateToConfigs, DigestOf(env.hash, m.tpl), c);
  }

  /** Everything that resolves is loaded and listed under its service and its template, and no list shrinks. */
  lemma {:induction false} ResolvedGrows(env: Env, s: State, matches: seq<Match>)
    ensures var s' := Resolved(env, s, matches);
            && s.loadedConfigs.Keys <= s'.loadedConfigs.Keys
            && Grown(env.hash, s.serviceToConfigs, s'.serviceToConfigs) && Grown(env.hash, s.templateToConfigs, s'.templateToConfigs)
            && forall m, x :: m in matches && Resolves(env, m, x) ==> ListedAt(env, s', m, x)
  {
    if matches != [] {
      var front, last := matches[..|matches| - 1], matches[|matches| - 1];
      ResolvedGrows(env, s, front);
      LoadedGrows(env, Resolved(env, s, front), last);
      assert forall m :: m in matches ==> m in front || m == last;
    }
  }

  /** A service that names a stale identifier is tried on what stands under its digest now. */
  lemma ServiceFinds(env: Env, s: State, svc: Service, id: AdId, d: Digest, x: Digest)
    requires id in Ids(svc) && d in TC.ListOf(s.cache.adIDToDigests, id)
    ensures var m := Match(if d in s.cache.digestToTemplate then s.cache.digestToTemplate[d] else EMPTY, svc);
            Resolves(env, m, x) ==> ListedAt(env, Step(env, s, AddService(svc)), m, x)
  {
    var tpl := if d in s.cache.digestToTemplate then s.cache.digestToTemplate[d] else EMPTY;
    TemplatesForHas(s.cache, Ids(svc), id, d);
    var tpls := TemplatesFor(s.cache, Ids(svc));
    var i :| 0 <= i < |tpls| && tpls[i] == tpl;
    assert MatchAll(tpls, svc)[i] == Match(tpl, svc);
    ResolvedGrows(env, Arrived(s, svc), MatchAll(tpls, svc));
  }

  function ServicesAt(s: State, id: AdId): set<Entity> {
    if id in s.adIDToServices then s.adIDToServices[id] else {}
  }

  lemma {:induction false} Enumerated(es: set<Entity>) returns (list: seq<Entity>)
    ensures forall i, j :: 0 <= i < j < |list| ==> list[i] != list[j]
    ensures forall e :: e in list <==> e in es
  {
    if es == {} {
      list := [];
    } else {
      var e :| e in es;
      var rest := Enumerated(es - {e});
      list := rest + [e];
      assert forall i :: 0 <= i < |rest| ==> rest[i] in rest;
    }
  }

  /** In every state a template can be tried in some order. */
  lemma {:induction false} SomeVisits(s: State, ids: seq<AdId>) returns (visits: seq<Entity>)
    ensures Visits(s, ids, visits)
  {
    if ids == [] {
      visits := [];
    } else {
      var before := SomeVisits(s, ids[..|ids| - 1]);
      var list := Enumerated(ServicesAt(s, ids[|ids| - 1]));
      visits := before + list;
      assert visits[..|before|] == before && visits[|before|..] == list;
      assert ListsServices(s, ids[|ids| - 1], list);
    }
  }

  lemma {:induction false} NoVisits(s: State, ids: seq<AdId>)
    requires s.adIDToServices == map[]
    ensures Visits(s, ids, [])
  {
    if ids != [] {
      NoVisits(s, ids[..|ids| - 1]);
      var none: seq<Entity> := [];
      assert none[..0] == none && none[0..] == none && ListsServices(s, ids[|ids| - 1], none);
    }
  }

  /** A template is added and a clashing one removed: nothing is cached or loaded, and the index has a stale entry. */
  lemma StaleReached(env: Env, u: Universe, raw: Config, g: Config, id: AdId, d: Digest) returns (s: State)
    requires Outlives(env, u, raw, g, id, d)
    ensures Reached(env, u, s) && s.cache.digestToTemplate == map[] && d in TC.ListOf(s.cache.adIDToDigests, id) && s.plain == {}
  {
    var add, tpl := AddConfig(raw, []), WithMetrics(env, raw);
    ReachedFirst(env, u);
    NoVisits(INITIAL, raw.adIdentifiers);
    ReachedNext(env, u, INITIAL, add);
    var s1 := Step(env, INITIAL, add);
    CacheAfter(env, INITIAL, add);
    ResolvedSamePlain(env, INITIAL.(cache := TC.Stored(env.hash, INITIAL.cache, tpl)), Known(INITIAL, tpl, []));
    ReachedNext(env, u, s1, RemoveTemplates([g]));
    RemovedTemplatesOne(env, s1, g);
    LeavesStale(env, u, INITIAL.cache, raw, g, id, d);
    s := Step(env, s1, RemoveTemplates([g]));
  }

  /** Then a service comes that resolves the empty template. */
  lemma StaleLoads(env: Env, u: Universe, raw: Config, g: Config, id: AdId, d: Digest, svc: Service) returns (s: State)
    requires Outlives(env, u, raw, g, id, d) && u.service(svc) && id in Ids(svc) && ResolvedConfig(env, EMPTY, svc).Ok?
    ensures Reached(env, u, s) && s.cache.digestToTemplate == map[] && s.loadedConfigs != map[] && s.plain == {}
  {
    var before := StaleReached(env, u, raw, g, id, d);
    ReachedNext(env, u, before, AddService(svc));
    s := Step(env, before, AddService(svc));
    ServiceFinds(env, before, svc, id, d, DigestOf(env.hash, ResolvedConfig(env, EMPTY, svc).value));
    CacheAfter(env, before, AddService(svc));
    ResolvedSamePlain(env, Arrived(before, svc), MatchAll(TemplatesFor(before.cache, Ids(svc)), svc));
  }

  ghost predicate NothingFromTemplates(s: State) {
    s.loadedConfigs.Keys <= s.plain && s.active <= s.plain
  }

  lemma NoTemplateNoneLoaded(env: Env, u: Universe, s: State)
    requires Reached(env, u, s) && NoStaleLoad(env, u) && s.cache.digestToTemplate == map[]
    ensures NothingFromTemplates(s)
  {
    var ops :| RunOf(env, u, ops) && Run(env, ops) == s;
    RunCovered(env, ops);
    RunFiled(env, u, ops);
    assert s.templateToConfigs.Keys == {};
  }

  /**
   In every run, once every template is gone from the cache nothing that came from a template is loaded or
   scheduled, exactly when no service resolves the empty template at an entry that a clash can leave behind.
   */
  lemma NoTemplateNoneLoadedIff(env: Env, u: Universe)
    ensures (forall s :: Reached(env, u, s) && s.cache.digestToTemplate == map[] ==> NothingFromTemplates(s)) <==> NoStaleLoad(env, u)
  {
    if NoStaleLoad(env, u) {
      forall s | Reached(env, u, s) && s.cache.digestToTemplate == map[]
        ensures NothingFromTemplates(s)
      {
        NoTemplateNoneLoaded(env, u, s);
      }
    } else {
      var id, d, svc :| StaleAt(env, u, id, d) && u.service(svc) && id in Ids(svc) && ResolvedConfig(env, EMPTY, svc).Ok?;
      var raw, g :| Outlives(env, u, raw, g, id, d);
      var s := StaleLoads(env, u, raw, g, id, d, svc);
      assert !NothingFromTemplates(s);
    }
  }
}
