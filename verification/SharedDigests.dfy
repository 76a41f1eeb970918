/**
 Configurations are unloaded by digest, so a removal can unload what is still listed elsewhere. Main result:
 OwedLoadedIff, the exact condition on what may come under which no run of AutoConfigRuns ever does.
 */
module SharedDigests {
  import opened Integration
  import opened Wrappers
  import opened AutoConfigRuns
  import opened TemplateRuns
  import CP = ConfigPoller
  import TC = TemplateCache

  /** Still listed under a service and under a template. */
  ghost predicate Owed(env: Env, s: State, d: Digest) {
    Listed(env.hash, s.serviceToConfigs, d) && Listed(env.hash, s.templateToConfigs, d)
  }

  ghost predicate OwedLoaded(env: Env, s: State) {
    forall d {:trigger d in s.loadedConfigs} :: Owed(env, s, d) ==> d in s.loadedConfigs
  }

  // ----- which templates are tried on which services -----

  ghost predicate Offers(u: Universe, e: Entity, id: AdId) {
    exists svc :: u.service(svc) && svc.entity == e && id in Ids(svc)
  }

  /** A template is tried on the latest service of an entity that once offered one of its identifiers. */
  ghost predicate Direct(env: Env, u: Universe, m: Match) {
    Cacheable(env, u, m.tpl) && exists id :: id in m.tpl.adIdentifiers && Offers(u, m.svc.entity, id)
  }

  /** Or a service comes and finds it in the cache, stale entries included. */
  ghost predicate Tried(env: Env, u: Universe, m: Match) {
    u.service(m.svc) && (Direct(env, u, m) || AnyFindable(env, u, Ids(m.svc), m.tpl))
  }

  ghost predicate Gives(env: Env, u: Universe, m: Match, x: Digest) {
    Tried(env, u, m) && Resolves(env, m, x)
  }

  ghost predicate Given(env: Env, u: Universe, x: Digest) {
    exists m :: Gives(env, u, m, x)
  }

  ghost predicate Removable(env: Env, u: Universe, t: Digest) {
    exists g :: u.gone(g) && g.IsTemplate() && DigestOf(env.hash, g) == t
  }

  ghost predicate NamedByRemoval(env: Env, u: Universe, x: Digest) {
    exists g :: u.gone(g) && DigestOf(env.hash, g) == x
  }

  /** Templates that resolve to one digest do so for one entity. */
  ghost predicate OneEntity(env: Env, u: Universe) {
    forall m, n, x :: Gives(env, u, m, x) && Gives(env, u, n, x) ==> m.svc.entity == n.svc.entity
  }

  /** And if one that may be removed is among them, they have one template digest. */
  ghost predicate OneTemplate(env: Env, u: Universe) {
    forall m, n, x :: Gives(env, u, m, x) && Gives(env, u, n, x) && Removable(env, u, DigestOf(env.hash, m.tpl)) ==>
      DigestOf(env.hash, m.tpl) == DigestOf(env.hash, n.tpl)
  }

  /** And no configuration that may be removed has the digest of a resolved one. */
  ghost predicate Apart(env: Env, u: Universe) {
    OneEntity(env, u) && OneTemplate(env, u) && forall x :: Given(env, u, x) ==> !NamedByRemoval(env, u, x)
  }

  // ----- where the listed digests come from -----

  ghost predicate Allowed(u: Universe, s: State) {
    && (forall e :: e in s.entityToService ==> s.entityToService[e].entity == e && u.service(s.entityToService[e]))
    && (forall id, e :: e in ServicesAt(s, id) ==> Offers(u, e, id))
  }

  ghost predicate FromService(env: Env, u: Universe, e: Entity, x: Digest) {
    exists m :: Gives(env, u, m, x) && m.svc.entity == e
  }

  ghost predicate FromTemplate(env: Env, u: Universe, t: Digest, x: Digest) {
    exists m :: Gives(env, u, m, x) && DigestOf(env.hash, m.tpl) == t
  }

  /** Whatever is listed is what a match that is tried gives. */
  ghost predicate Explained(env: Env, u: Universe, s: State) {
    && (forall e, x :: x in Under(env.hash, s.serviceToConfigs, e) ==> FromService(env, u, e, x))
    && (forall t, x :: x in Under(env.hash, s.templateToConfigs, t) ==> FromTemplate(env, u, t, x))
  }

  lemma {:induction false} RegisteredAt(s: State, ids: seq<AdId>, e: Entity, id: AdId)
    ensures ServicesAt(s.(adIDToServices := Registered(s.adIDToServices, ids, e)), id)
         == ServicesAt(s, id) + if id in ids then {e} else {}
  {
    if ids != [] {
      RegisteredAt(s, ids[..|ids| - 1], e, id);
      assert id in ids <==> id in ids[..|ids| - 1] || id == ids[|ids| - 1];
    }
  }

  lemma {:induction false} VisitsAre(s: State, ids: seq<AdId>, visits: seq<Entity>, e: Entity)
    requires Visits(s, ids, visits)
    ensures e in visits <==> exists id :: id in ids && e in ServicesAt(s, id)
  {
    if ids != [] {
      var front, last := ids[..|ids| - 1], ids[|ids| - 1];
      var n :| 0 <= n <= |visits| && Visits(s, front, visits[..n]) && ListsServices(s, last, visits[n..]);
      VisitsAre(s, front, visits[..n], e);
      assert visits == visits[..n] + visits[n..];
      assert e in visits[n..] <==> e in ServicesAt(s, last);
      if e in visits[..n] {
        var id :| id in front && e in ServicesAt(s, id);
        assert id in ids;
      }
      assert last in ids;
    }
  }

  lemma {:induction false} KnownAre(s: State, tpl: Config, visits: seq<Entity>, m: Match)
    ensures m in Known(s, tpl, visits) <==>
            m.tpl == tpl && exists e :: e in visits && e in s.entityToService && m.svc == s.entityToService[e]
  {
    if visits != [] {
      var front, last := visits[..|visits| - 1], visits[|visits| - 1];
      KnownAre(s, tpl, front, m);
      assert forall e :: e in visits <==> e in front || e == last;
    }
  }

  lemma {:induction false} ResolvedExplained(env: Env, u: Universe, s: State, matches: seq<Match>)
    requires Explained(env, u, s) && forall m :: m in matches ==> Tried(env, u, m)
    ensures Explained(env, u, Resolved(env, s, matches))
  {
    if matches != [] {
      var front, m := matches[..|matches| - 1], matches[|matches| - 1];
      ResolvedExplained(env, u, s, front);
      assert m in matches;
      LoadedExplained(env, u, Resolved(env, s, front), m);
    }
  }

  lemma LoadedExplained(env: Env, u: Universe, s: State, m: Match)
    requires Explained(env, u, s) && Tried(env, u, m)
    ensures Explained(env, u, Loaded(env, s, m.tpl, m.svc))
  {
    match ResolvedConfig(env, m.tpl, m.svc)
    case Err =>
    case Ok(c) =>
      AddedUnder(env.hash, s.serviceToConfigs, m.svc.entity, c);
      AddedUnder(env.hash, s.templateToConfigs, DigestOf(env.hash, m.tpl), c);
      assert Gives(env, u, m, DigestOf(env.hash, c));
  }

  lemma NewServiceExplained(env: Env, u: Universe, s: State, svc: Service)
    requires Explained(env, u, s) && Allowed(u, s) && Indexed(env, u, s.cache) && u.service(svc)
    ensures Explained(env, u, NewService(env, s, svc))
  {
    var tpls := TemplatesFor(s.cache, Ids(svc));
    forall m | m in MatchAll(tpls, svc)
      ensures Tried(env, u, m)
    {
      assert m.tpl in tpls && m.svc == svc;
      TemplatesForFindable(env, u, s.cache, Ids(svc), m.tpl);
    }
    if svc.adIdentifiers.Ok? {
      ResolvedExplained(env, u, Arrived(s, svc), MatchAll(tpls, svc));
    }
  }

  lemma KnownTried(env: Env, u: Universe, s: State, raw: Config, visits: seq<Entity>, m: Match)
    requires Allowed(u, s) && u.config(raw) && raw.IsTemplate() && Visits(s, raw.adIdentifiers, visits)
    requires m in Known(s, WithMetrics(env, raw), visits)
    ensures Tried(env, u, m)
  {
    KnownAre(s, WithMetrics(env, raw), visits, m);
    var e :| e in visits && e in s.entityToService && m.svc == s.entityToService[e];
    VisitsAre(s, raw.adIdentifiers, visits, e);
    var id :| id in raw.adIdentifiers && e in ServicesAt(s, id);
    assert id in m.tpl.adIdentifiers && Offers(u, m.svc.entity, id);
  }

  lemma NewConfigExplained(env: Env, u: Universe, s: State, raw: Config, visits: seq<Entity>)
    requires Explained(env, u, s) && Allowed(u, s) && Fits(u, s, AddConfig(raw, visits))
    ensures Explained(env, u, NewConfig(env, s, raw, visits))
  {
    if raw.IsTemplate() {
      var tpl := WithMetrics(env, raw);
      forall m | m in Known(s, tpl, visits)
        ensures Tried(env, u, m)
      {
        KnownTried(env, u, s, raw, visits, m);
      }
      ResolvedExplained(env, u, s.(cache := TC.Stored(env.hash, s.cache, tpl)), Known(s, tpl, visits));
    }
  }

  lemma ServicesAfter(env: Env, s: State, op: Op)
    ensures var s' := Step(env, s, op);
            && s'.entityToService ==
               (match op
                case AddService(svc) => s.entityToService[svc.entity := svc]
                case RemoveService(e) => s.entityToService - {e}
                case _ => s.entityToService)
            && s'.adIDToServices == if op.AddService? then Registered(s.adIDToServices, Ids(op.svc), op.svc.entity) else s.adIDToServices
  {
    match op
    case AddService(svc) =>
      if svc.adIdentifiers.Ok? {
        ResolvedSameServices(env, Arrived(s, svc), MatchAll(TemplatesFor(s.cache, Ids(svc)), svc));
      }
    case AddConfig(raw, visits) =>
      var tpl := WithMetrics(env, raw);
      ResolvedSameServices(env, s.(cache := TC.Stored(env.hash, s.cache, tpl)), Known(s, tpl, visits));
    case RemoveTemplates(cs) => RemovedTemplatesSameServices(env, s, cs);
    case _ =>
  }

  lemma StepAllowed(env: Env, u: Universe, s: State, op: Op)
    requires Allowed(u, s) && Fits(u, s, op)
    ensures Allowed(u, Step(env, s, op))
  {
    ServicesAfter(env, s, op);
    forall id, e | e in ServicesAt(Step(env, s, op), id)
      ensures Offers(u, e, id)
    {
      if op.AddService? {
        RegisteredAt(s, Ids(op.svc), op.svc.entity, id);
      }
    }
  }

  lemma {:induction false} RunExplained(env: Env, u: Universe, ops: seq<Op>)
    requires RunOf(env, u, ops)
    ensures Explained(env, u, Run(env, ops)) && Allowed(u, Run(env, ops))
  {
    if ops != [] {
      var s, op := Run(env, ops[..|ops| - 1]), ops[|ops| - 1];
      RunExplained(env, u, ops[..|ops| - 1]);
      RunIndexed(env, u, ops[..|ops| - 1]);
      StepAllowed(env, u, s, op);
      match op
      case AddService(svc) => NewServiceExplained(env, u, s, svc);
      case AddConfig(raw, visits) => NewConfigExplained(env, u, s, raw, visits);
      case RemoveTemplates(cs) =>
        RemovedTemplatesAre(env, s, cs);
        FewerExplained(env, u, s, Step(env, s, op));
      case _ => FewerExplained(env, u, s, Step(env, s, op));
    }
  }

  lemma ReachedExplained(env: Env, u: Universe, s: State)
    requires Reached(env, u, s)
    ensures Explained(env, u, s)
  {
    var ops :| RunOf(env, u, ops) && Run(env, ops) == s;
    RunExplained(env, u, ops);
  }

  lemma ListedIsGiven(env: Env, u: Universe, s: State, e: Entity, t: Digest, x: Digest)
    requires Explained(env, u, s) && (x in Under(env.hash, s.serviceToConfigs, e) || x in Under(env.hash, s.templateToConfigs, t))
    ensures Given(env, u, x)
  {
    if x in Under(env.hash, s.serviceToConfigs, e) {
      assert FromService(env, u, e, x);
    } else {
      assert FromTemplate(env, u, t, x);
    }
  }

  lemma FewerExplained(env: Env, u: Universe, s: State, s': State)
    requires Explained(env, u, s)
    requires forall e :: e in s'.serviceToConfigs ==> ListOf(s'.serviceToConfigs, e) == ListOf(s.serviceToConfigs, e)
    requires forall t :: t in s'.templateToConfigs ==> ListOf(s'.templateToConfigs, t) == ListOf(s.templateToConfigs, t)
    ensures Explained(env, u, s')
  {
    forall e, x | x in Under(env.hash, s'.serviceToConfigs, e)
      ensures FromService(env, u, e, x)
    {
      assert x in Under(env.hash, s.serviceToConfigs, e);
    }
    forall t, x | x in Under(env.hash, s'.templateToConfigs, t)
      ensures FromTemplate(env, u, t, x)
    {
      assert x in Under(env.hash, s.templateToConfigs, t);
    }
  }

  // ----- apart digests keep what is listed loaded -----

  lemma LoadedOwes(env: Env, s: State, tpl: Config, svc: Service)
    requires OwedLoaded(env, s)
    ensures OwedLoaded(env, Loaded(env, s, tpl, svc))
  {
    match ResolvedConfig(env, tpl, svc)
    case Err =>
    case Ok(c) =>
      var s' := Loaded(env, s, tpl, svc);
      forall x | Owed(env, s', x)
        ensures x in s'.loadedConfigs
      {
        ListedBefore(env.hash, s.serviceToConfigs, svc.entity, c, x);
        ListedBefore(env.hash, s.templateToConfigs, DigestOf(env.hash, tpl), c, x);
      }
  }

  lemma ListedBefore<K(!new)>(hash: string -> Digest, m: map<K, seq<Config>>, k: K, c: Config, d: Digest)
    requires Listed(hash, AddedFor(m, k, c), d)
    ensures d == DigestOf(hash, c) || Listed(hash, m, d)
  {
    CP.DigestsAppend(hash, ListOf(m, k), c);
    var j :| j in AddedFor(m, k, c) && d in CP.Digests(hash, AddedFor(m, k, c)[j]);
    if d != DigestOf(hash, c) {
      assert j in m && d in CP.Digests(hash, m[j]);
    }
  }

  lemma {:induction false} ResolvedOwes(env: Env, s: State, matches: seq<Match>)
    requires OwedLoaded(env, s)
    ensures OwedLoaded(env, Resolved(env, s, matches))
  {
    if matches != [] {
      var before, m := matches[..|matches| - 1], matches[|matches| - 1];
      ResolvedOwes(env, s, before);
      LoadedOwes(env, Resolved(env, s, before), m.tpl, m.svc);
    }
  }

  lemma AddingOwes(env: Env, s: State, op: Op)
    requires OwedLoaded(env, s) && (op.AddService? || op.AddConfig?)
    ensures OwedLoaded(env, Step(env, s, op))
  {
    match op
    case AddService(svc) =>
      if svc.adIdentifiers.Ok? {
        ResolvedOwes(env, Arrived(s, svc), MatchAll(TemplatesFor(s.cache, Ids(svc)), svc));
      }
    case AddConfig(raw, visits) =>
      var c := WithMetrics(env, raw);
      if c.IsTemplate() {
        ResolvedOwes(env, s.(cache := TC.Stored(env.hash, s.cache, c)), Known(s, c, visits));
      }
  }

  /** A removal drops whole lists, and unloads only what stood in a dropped list or was named. */
  lemma RemovalsDrop(env: Env, s: State, op: Op, x: Digest)
    requires !op.AddService? && !op.AddConfig? && x in s.loadedConfigs && x !in Step(env, s, op).loadedConfigs
    ensures match op
            case RemoveService(e) =>
              && x in Under(env.hash, s.serviceToConfigs, e)
              && Step(env, s, op).serviceToConfigs == s.serviceToConfigs - {e}
            case RemoveConfigs(cs) => exists c :: c in cs && DigestOf(env.hash, c) == x
            case RemoveTemplates(cs) =>
              && Step(env, s, op).templateToConfigs == s.templateToConfigs - TemplateDigests(env.hash, cs)
              && exists c :: c in cs && c.IsTemplate() && x in Under(env.hash, s.templateToConfigs, DigestOf(env.hash, c))
            case _ => true
  {
    match op
    case RemoveConfigs(cs) =>
      var i :| 0 <= i < |cs| && DigestOf(env.hash, cs[i]) == x;
      assert cs[i] in cs;
    case RemoveTemplates(cs) =>
      RemovedTemplatesAre(env, s, cs);
      FiledUnderFrom(env, s, cs, x);
    case _ =>
  }

  lemma {:induction false} FiledUnderFrom(env: Env, s: State, cs: seq<Config>, x: Digest)
    requires x in FiledUnder(env, s, cs)
    ensures exists c :: c in cs && c.IsTemplate() && x in Under(env.hash, s.templateToConfigs, DigestOf(env.hash, c))
  {
    var front, c := cs[..|cs| - 1], cs[|cs| - 1];
    if x in FiledUnder(env, s, front) {
      FiledUnderFrom(env, s, front, x);
      var b :| b in front && b.IsTemplate() && x in Under(env.hash, s.templateToConfigs, DigestOf(env.hash, b));
      assert b in cs;
    } else {
      assert c in cs;
    }
  }

  lemma RemovalsClear(env: Env, u: Universe, s: State, op: Op, x: Digest)
    requires Explained(env, u, s) && Explained(env, u, Step(env, s, op)) && Fits(u, s, op) && Apart(env, u)
    requires !op.AddService? && !op.AddConfig? && x in s.loadedConfigs && Owed(env, Step(env, s, op), x)
    ensures x in Step(env, s, op).loadedConfigs
  {
    var s' := Step(env, s, op);
    if x !in s'.loadedConfigs {
      RemovalsDrop(env, s, op, x);
      var e :| e in s'.serviceToConfigs && x in CP.Digests(env.hash, s'.serviceToConfigs[e]);
      var t :| t in s'.templateToConfigs && x in CP.Digests(env.hash, s'.templateToConfigs[t]);
      assert x in Under(env.hash, s'.serviceToConfigs, e) && x in Under(env.hash, s'.templateToConfigs, t);
      assert FromService(env, u, e, x) && FromTemplate(env, u, t, x);
      match op
      case RemoveService(gone) =>
        SharedService(env, u, e, gone, x);
        assert false;
      case RemoveConfigs(cs) =>
        assert NamedByRemoval(env, u, x);
        ListedIsGiven(env, u, s', e, t, x);
        assert false;
      case RemoveTemplates(cs) =>
        var c :| c in cs && c.IsTemplate() && x in Under(env.hash, s.templateToConfigs, DigestOf(env.hash, c));
        SharedTemplate(env, u, cs, c, t, x);
        assert false;
    }
  }

  lemma SharedService(env: Env, u: Universe, e: Entity, f: Entity, x: Digest)
    requires e != f && FromService(env, u, e, x) && FromService(env, u, f, x)
    ensures !Apart(env, u)
  {
    var m :| Gives(env, u, m, x) && m.svc.entity == e;
    var n :| Gives(env, u, n, x) && n.svc.entity == f;
  }

  lemma SharedTemplate(env: Env, u: Universe, cs: seq<Config>, c: Config, t: Digest, x: Digest)
    requires (forall g :: g in cs ==> u.gone(g)) && c in cs && c.IsTemplate() && t !in TemplateDigests(env.hash, cs)
    requires FromTemplate(env, u, DigestOf(env.hash, c), x) && FromTemplate(env, u, t, x)
    ensures !Apart(env, u)
  {
    var i :| 0 <= i < |cs| && cs[i] == c;
    assert Removable(env, u, DigestOf(env.hash, c));
    var m :| Gives(env, u, m, x) && DigestOf(env.hash, m.tpl) == DigestOf(env.hash, c);
    var n :| Gives(env, u, n, x) && DigestOf(env.hash, n.tpl) == t;
  }

  lemma {:induction false} RunOwes(env: Env, u: Universe, ops: seq<Op>)
    requires RunOf(env, u, ops) && Apart(env, u)
    ensures OwedLoaded(env, Run(env, ops))
  {
    if ops == [] {
      assert OwedLoaded(env, INITIAL);
    } else {
      var s, op := Run(env, ops[..|ops| - 1]), ops[|ops| - 1];
      RunOwes(env, u, ops[..|ops| - 1]);
      RunExplained(env, u, ops[..|ops| - 1]);
      RunExplained(env, u, ops);
      if op.AddService? || op.AddConfig? {
        AddingOwes(env, s, op);
      } else {
        forall x | Owed(env, Step(env, s, op), x)
          ensures x in Step(env, s, op).loadedConfigs
        {
          StillOwed(env, s, op, x);
          RemovalsClear(env, u, s, op, x);
        }
      }
    }
  }

  lemma StillOwed(env: Env, s: State, op: Op, x: Digest)
    requires !op.AddService? && !op.AddConfig? && Owed(env, Step(env, s, op), x)
    ensures Owed(env, s, x)
  {
    if op.RemoveTemplates? {
      RemovedTemplatesAre(env, s, op.cs);
    }
    FewerListed(env.hash, Step(env, s, op).serviceToConfigs, s.serviceToConfigs, x);
    FewerListed(env.hash, Step(env, s, op).templateToConfigs, s.templateToConfigs, x);
  }

  lemma FewerListed<K(!new)>(hash: string -> Digest, fewer: map<K, seq<Config>>, m: map<K, seq<Config>>, d: Digest)
    requires Listed(hash, fewer, d) && forall k :: k in fewer ==> k in m && m[k] == fewer[k]
    ensures Listed(hash, m, d)
  {
    var k :| k in fewer && d in CP.Digests(hash, fewer[k]);
    assert k in m;
  }

  // ----- every match can be made -----

  /** No list of a service shrinks, nor one of a template but for those in `but`. */
  ghost predicate Longer(env: Env, s: State, s': State, but: set<Digest>) {
    && Grown(env.hash, s.serviceToConfigs, s'.serviceToConfigs)
    && forall t :: t !in but ==> Under(env.hash, s.templateToConfigs, t) <= Under(env.hash, s'.templateToConfigs, t)
  }

  lemma LongerTwice(env: Env, s: State, s': State, s'': State, but: set<Digest>)
    requires Longer(env, s, s', but) && Longer(env, s', s'', but)
    ensures Longer(env, s, s'', but)
  {
    forall k
      ensures Under(env.hash, s.serviceToConfigs, k) <= Under(env.hash, s''.serviceToConfigs, k)
    {
      assert Under(env.hash, s.serviceToConfigs, k) <= Under(env.hash, s'.serviceToConfigs, k);
    }
    forall t | t !in but
      ensures Under(env.hash, s.templateToConfigs, t) <= Under(env.hash, s''.templateToConfigs, t)
    {
      assert Under(env.hash, s.templateToConfigs, t) <= Under(env.hash, s'.templateToConfigs, t);
    }
  }

  lemma ServiceAdded(env: Env, u: Universe, s: State, svc: Service) returns (s': State)
    requires Reached(env, u, s) && u.service(svc)
    ensures Reached(env, u, s') && s' == Step(env, s, AddService(svc)) && Longer(env, s, s', {}) && s'.cache == s.cache
  {
    ReachedNext(env, u, s, AddService(svc));
    s' := Step(env, s, AddService(svc));
    CacheAfter(env, s, AddService(svc));
    ResolvedGrows(env, Arrived(s, svc), MatchAll(TemplatesFor(s.cache, Ids(svc)), svc));
  }

  lemma TriedOn(env: Env, s: State, raw: Config, visits: seq<Entity>, id: AdId, e: Entity, x: Digest)
    requires raw.IsTemplate() && Visits(s, raw.adIdentifiers, visits)
    requires id in raw.adIdentifiers && e in ServicesAt(s, id) && e in s.entityToService
    requires Resolves(env, Match(WithMetrics(env, raw), s.entityToService[e]), x)
    ensures ListedAt(env, Step(env, s, AddConfig(raw, visits)), Match(WithMetrics(env, raw), s.entityToService[e]), x)
  {
    var tpl := WithMetrics(env, raw);
    VisitsAre(s, raw.adIdentifiers, visits, e);
    KnownAre(s, tpl, visits, Match(tpl, s.entityToService[e]));
    ResolvedGrows(env, s.(cache := TC.Stored(env.hash, s.cache, tpl)), Known(s, tpl, visits));
  }

  lemma NewConfigLonger(env: Env, s: State, raw: Config, visits: seq<Entity>)
    ensures Longer(env, s, Step(env, s, AddConfig(raw, visits)), {})
  {
    var tpl := WithMetrics(env, raw);
    ResolvedGrows(env, s.(cache := TC.Stored(env.hash, s.cache, tpl)), Known(s, tpl, visits));
  }

  lemma TemplateAdded(env: Env, u: Universe, s: State, raw: Config) returns (s': State, visits: seq<Entity>)
    requires Reached(env, u, s) && u.config(raw) && raw.IsTemplate()
    ensures Visits(s, raw.adIdentifiers, visits) && s' == Step(env, s, AddConfig(raw, visits))
    ensures Reached(env, u, s') && Longer(env, s, s', {}) && s'.cache == TC.Stored(env.hash, s.cache, WithMetrics(env, raw))
  {
    visits := SomeVisits(s, raw.adIdentifiers);
    ReachedNext(env, u, s, AddConfig(raw, visits));
    s' := Step(env, s, AddConfig(raw, visits));
    CacheAfter(env, s, AddConfig(raw, visits));
    NewConfigLonger(env, s, raw, visits);
  }

  lemma TemplateGone(env: Env, u: Universe, s: State, g: Config) returns (s': State)
    requires Reached(env, u, s) && u.gone(g) && g.IsTemplate()
    ensures Reached(env, u, s') && Longer(env, s, s', {DigestOf(env.hash, g)}) && s'.cache == TC.Deleted(env.hash, s.cache, g)
  {
    ReachedNext(env, u, s, RemoveTemplates([g]));
    s' := Step(env, s, RemoveTemplates([g]));
    RemovedTemplatesOne(env, s, g);
  }

  /** The entity offers the identifier and then comes again as another service. */
  lemma ComesTwice(env: Env, s: State, first: Service, svc: Service, id: AdId)
    requires first.entity == svc.entity && id in Ids(first)
    ensures var s' := Step(env, Step(env, s, AddService(first)), AddService(svc));
            && svc.entity in ServicesAt(s', id) && svc.entity in s'.entityToService
            && s'.entityToService[svc.entity] == svc
  {
    var s1 := Step(env, s, AddService(first));
    ServicesAfter(env, s, AddService(first));
    ServicesAfter(env, s1, AddService(svc));
    RegisteredAt(s, Ids(first), svc.entity, id);
    RegisteredAt(s1, Ids(svc), svc.entity, id);
  }

  lemma ReachDirect(env: Env, u: Universe, s: State, m: Match, x: Digest) returns (s': State)
    requires Reached(env, u, s) && u.service(m.svc) && Direct(env, u, m) && Resolves(env, m, x)
    ensures Reached(env, u, s') && ListedAt(env, s', m, x) && Longer(env, s, s', {})
  {
    var raw :| u.config(raw) && raw.IsTemplate() && m.tpl == WithMetrics(env, raw);
    var id :| id in m.tpl.adIdentifiers && Offers(u, m.svc.entity, id);
    var first :| u.service(first) && first.entity == m.svc.entity && id in Ids(first);
    var s1 := ServiceAdded(env, u, s, first);
    var s2 := ServiceAdded(env, u, s1, m.svc);
    var visits;
    ComesTwice(env, s, first, m.svc, id);
    s', visits := TemplateAdded(env, u, s2, raw);
    TriedOn(env, s2, raw, visits, id, m.svc.entity, x);
    LongerTwice(env, s, s1, s2, {});
    LongerTwice(env, s, s2, s', {});
  }

  /** The index keeps a stale entry when the cache gets another template. */
  lemma StaleStays(hash: string -> Digest, cache: TC.State, tpl: Config, id: AdId, d: Digest)
    requires d in TC.ListOf(cache.adIDToDigests, id)
    ensures d in TC.ListOf(TC.Stored(hash, cache, tpl).adIDToDigests, id)
  {
    TC.AppendedLists(cache.adIDToDigests, tpl.adIdentifiers, DigestOf(hash, tpl), id);
  }

  lemma MadeStale(env: Env, u: Universe, s: State, raw: Config, g: Config, id: AdId, d: Digest) returns (s': State)
    requires Reached(env, u, s) && Outlives(env, u, raw, g, id, d)
    ensures Reached(env, u, s') && Longer(env, s, s', {d})
    ensures d in TC.ListOf(s'.cache.adIDToDigests, id) && d !in s'.cache.digestToADId
  {
    var s1 := TemplateGone(env, u, s, g);
    var s2, visits := TemplateAdded(env, u, s1, raw);
    s' := TemplateGone(env, u, s2, g);
    LeavesStale(env, u, s1.cache, raw, g, id, d);
    LongerTwice(env, s, s1, s2, {d});
    LongerTwice(env, s, s2, s', {d});
  }

  lemma ReachStale(env: Env, u: Universe, s: State, m: Match, id: AdId, d: Digest, x: Digest) returns (s': State)
    requires Reached(env, u, s) && u.service(m.svc) && id in Ids(m.svc) && StaleAt(env, u, id, d) && Resolves(env, m, x)
    requires m.tpl == EMPTY || (Cacheable(env, u, m.tpl) && DigestOf(env.hash, m.tpl) == d)
    ensures Reached(env, u, s') && ListedAt(env, s', m, x) && Longer(env, s, s', {d})
  {
    var raw, g :| Outlives(env, u, raw, g, id, d);
    var s1 := MadeStale(env, u, s, raw, g, id, d);
    var s2 := s1;
    ReachedIndexed(env, u, s1);
    if m.tpl != EMPTY {
      var again :| u.config(again) && again.IsTemplate() && m.tpl == WithMetrics(env, again);
      var visits;
      s2, visits := TemplateAdded(env, u, s1, again);
      StaleStays(env.hash, s1.cache, m.tpl, id, d);
      LongerTwice(env, s, s1, s2, {d});
    }
    s' := ServiceAdded(env, u, s2, m.svc);
    ServiceFinds(env, s2, m.svc, id, d, x);
    LongerTwice(env, s, s2, s', {d});
  }

  lemma NotDirect(env: Env, u: Universe, m: Match) returns (id: AdId, d: Digest)
    requires Tried(env, u, m) && !Direct(env, u, m)
    ensures id in Ids(m.svc) && StaleAt(env, u, id, d)
    ensures m.tpl == EMPTY || (Cacheable(env, u, m.tpl) && DigestOf(env.hash, m.tpl) == d)
  {
    id :| id in Ids(m.svc) && Findable(env, u, id, m.tpl);
    if Cacheable(env, u, m.tpl) && id in m.tpl.adIdentifiers {
      assert Offers(u, m.svc.entity, id);
      assert false;
    }
    d :| StaleAt(env, u, id, d) && (m.tpl == EMPTY || (Cacheable(env, u, m.tpl) && DigestOf(env.hash, m.tpl) == d));
  }

  /** Every match that is tried can be made from any reachable state, and costs at most the list of its own template. */
  lemma Reach(env: Env, u: Universe, s: State, m: Match, x: Digest) returns (s': State)
    requires Reached(env, u, s) && Gives(env, u, m, x)
    ensures Reached(env, u, s') && ListedAt(env, s', m, x)
    ensures Grown(env.hash, s.serviceToConfigs, s'.serviceToConfigs)
    ensures m.tpl != EMPTY ==> Longer(env, s, s', {DigestOf(env.hash, m.tpl)})
  {
    if Direct(env, u, m) {
      s' := ReachDirect(env, u, s, m, x);
    } else {
      var id, d := NotDirect(env, u, m);
      s' := ReachStale(env, u, s, m, id, d, x);
    }
  }

  lemma OwedAt(env: Env, s: State, e: Entity, t: Digest, x: Digest)
    requires x in Under(env.hash, s.serviceToConfigs, e) && x in Under(env.hash, s.templateToConfigs, t)
    ensures Owed(env, s, x)
  {
    assert e in s.serviceToConfigs && t in s.templateToConfigs;
  }

  lemma DropsService(env: Env, s: State, e: Entity, f: Entity, t: Digest, x: Digest)
    requires e != f && x in Under(env.hash, s.serviceToConfigs, e)
    requires x in Under(env.hash, s.templateToConfigs, t) && x in Under(env.hash, s.serviceToConfigs, f)
    ensures var s' := Step(env, s, RemoveService(e)); x !in s'.loadedConfigs && Owed(env, s', x)
  {
    OwedAt(env, Step(env, s, RemoveService(e)), f, t, x);
  }

  /** Two entities with one digest: removing the first service unloads what the second still lists. */
  lemma TwoEntities(env: Env, u: Universe, m: Match, n: Match, x: Digest) returns (s: State)
    requires Gives(env, u, m, x) && Gives(env, u, n, x) && m.svc.entity != n.svc.entity
    ensures Reached(env, u, s) && !OwedLoaded(env, s)
  {
    ReachedFirst(env, u);
    var s1 := Reach(env, u, INITIAL, m, x);
    var s2 := Reach(env, u, s1, n, x);
    ReachedNext(env, u, s2, RemoveService(m.svc.entity));
    DropsService(env, s2, m.svc.entity, n.svc.entity, DigestOf(env.hash, n.tpl), x);
    s := Step(env, s2, RemoveService(m.svc.entity));
  }

  lemma NamedDigest(env: Env, u: Universe, m: Match, g: Config, x: Digest) returns (s: State)
    requires Gives(env, u, m, x) && u.gone(g) && DigestOf(env.hash, g) == x
    ensures Reached(env, u, s) && !OwedLoaded(env, s)
  {
    ReachedFirst(env, u);
    var s1 := Reach(env, u, INITIAL, m, x);
    ReachedNext(env, u, s1, RemoveConfigs([g]));
    DigestsOne(env.hash, g);
    s := Step(env, s1, RemoveConfigs([g]));
    OwedAt(env, s, m.svc.entity, DigestOf(env.hash, m.tpl), x);
  }

  lemma BothMade(env: Env, u: Universe, m: Match, n: Match, x: Digest) returns (s: State)
    requires Gives(env, u, m, x) && Gives(env, u, n, x) && DigestOf(env.hash, m.tpl) != DigestOf(env.hash, n.tpl)
    requires n.tpl != EMPTY
    ensures Reached(env, u, s)
    ensures x in Under(env.hash, s.templateToConfigs, DigestOf(env.hash, m.tpl)) && x in Under(env.hash, s.serviceToConfigs, m.svc.entity)
    ensures x in Under(env.hash, s.templateToConfigs, DigestOf(env.hash, n.tpl)) && x in Under(env.hash, s.serviceToConfigs, n.svc.entity)
  {
    ReachedFirst(env, u);
    var s1 := Reach(env, u, INITIAL, m, x);
    s := Reach(env, u, s1, n, x);
  }

  lemma DropsTemplate(env: Env, s: State, g: Config, e: Entity, t: Digest, x: Digest)
    requires g.IsTemplate() && t != DigestOf(env.hash, g) && x in Under(env.hash, s.templateToConfigs, DigestOf(env.hash, g))
    requires x in Under(env.hash, s.templateToConfigs, t) && x in Under(env.hash, s.serviceToConfigs, e)
    ensures var s' := Step(env, s, RemoveTemplates([g])); x !in s'.loadedConfigs && x !in s'.active && Owed(env, s', x)
  {
    RemovedTemplatesOne(env, s, g);
    OwedAt(env, Step(env, s, RemoveTemplates([g])), e, t, x);
  }

  /** Two templates with one digest: removing the first unloads what the second still lists. */
  lemma TwoTemplates(env: Env, u: Universe, m: Match, n: Match, g: Config, x: Digest) returns (s: State)
    requires Gives(env, u, m, x) && Gives(env, u, n, x) && DigestOf(env.hash, m.tpl) != DigestOf(env.hash, n.tpl)
    requires u.gone(g) && g.IsTemplate() && DigestOf(env.hash, g) == DigestOf(env.hash, m.tpl)
    ensures Reached(env, u, s) && !OwedLoaded(env, s)
  {
    var both;
    if m.tpl == EMPTY {
      both := BothMade(env, u, m, n, x);
    } else {
      both := BothMade(env, u, n, m, x);
    }
    ReachedNext(env, u, both, RemoveTemplates([g]));
    DropsTemplate(env, both, g, n.svc.entity, DigestOf(env.hash, n.tpl), x);
    s := Step(env, both, RemoveTemplates([g]));
  }

  lemma NotApart(env: Env, u: Universe) returns (s: State)
    requires !Apart(env, u)
    ensures Reached(env, u, s) && !OwedLoaded(env, s)
  {
    if !OneEntity(env, u) {
      var m, n, x :| Gives(env, u, m, x) && Gives(env, u, n, x) && m.svc.entity != n.svc.entity;
      s := TwoEntities(env, u, m, n, x);
    } else if !OneTemplate(env, u) {
      var m, n, x :| Gives(env, u, m, x) && Gives(env, u, n, x) && Removable(env, u, DigestOf(env.hash, m.tpl)) &&
                     DigestOf(env.hash, m.tpl) != DigestOf(env.hash, n.tpl);
      var g :| u.gone(g) && g.IsTemplate() && DigestOf(env.hash, g) == DigestOf(env.hash, m.tpl);
      s := TwoTemplates(env, u, m, n, g, x);
    } else {
      var x :| Given(env, u, x) && NamedByRemoval(env, u, x);
      var m :| Gives(env, u, m, x);
      var g :| u.gone(g) && DigestOf(env.hash, g) == x;
      s := NamedDigest(env, u, m, g, x);
    }
  }

  /** In every run what is listed under a service and a template is loaded, exactly when what may come keeps its digests apart. */
  lemma OwedLoadedIff(env: Env, u: Universe)
    ensures (forall s :: Reached(env, u, s) ==> OwedLoaded(env, s)) <==> Apart(env, u)
  {
    if Apart(env, u) {
      forall s | Reached(env, u, s)
        ensures OwedLoaded(env, s)
      {
        var ops :| RunOf(env, u, ops) && Run(env, ops) == s;
        RunOwes(env, u, ops);
      }
    } else {
      var s := NotApart(env, u);
    }
  }

  /** Then what came from templates and is loaded is exactly what is listed under a service and under a template. */
  lemma LoadedIsOwed(env: Env, u: Universe, s: State, d: Digest)
    requires Apart(env, u) && Reached(env, u, s) && d !in s.plain
    ensures d in s.loadedConfigs <==> Owed(env, s, d)
  {
    var ops :| RunOf(env, u, ops) && Run(env, ops) == s;
    RunOwes(env, u, ops);
    RunCovered(env, ops);
  }

  // ----- a failing run -----

  lemma OneVisit(s: State, id: AdId, e: Entity)
    requires ServicesAt(s, id) == {e}
    ensures Visits(s, [id], [e])
  {
    var ids, visits := [id], [e];
    assert ids[..0] == [] && visits[..0] == [] && visits[0..] == visits;
    assert Visits(s, ids[..|ids| - 1], visits[..0]) && ListsServices(s, ids[|ids| - 1], visits[0..]);
  }

  /** A service, two templates for it, and the first template goes. */
  function SharingRun(a: Config, b: Config, svc: Service): seq<Op> {
    [AddService(svc), AddConfig(a, [svc.entity]), AddConfig(b, [svc.entity]), RemoveTemplates([a])]
  }

  lemma FourOps(env: Env, u: Universe, s1: State, s2: State, s3: State, ops: seq<Op>)
    requires |ops| == 4 && s1 == Step(env, INITIAL, ops[0]) && s2 == Step(env, s1, ops[1]) && s3 == Step(env, s2, ops[2])
    requires Fits(u, INITIAL, ops[0]) && Fits(u, s1, ops[1]) && Fits(u, s2, ops[2]) && Fits(u, s3, ops[3])
    ensures RunOf(env, u, ops) && Run(env, ops) == Step(env, s3, ops[3])
  {
    assert ops[..3][..2] == ops[..2] && ops[..2][..1] == ops[..1] && ops[..1][..0] == [];
    assert RunOf(env, u, ops[..1][..0]) && Run(env, ops[..1][..0]) == INITIAL;
    assert RunOf(env, u, ops[..1]) && Run(env, ops[..1]) == s1;
    assert RunOf(env, u, ops[..2]) && Run(env, ops[..2]) == s2;
    assert RunOf(env, u, ops[..3]) && Run(env, ops[..3]) == s3;
  }

  lemma SharingLists(env: Env, a: Config, b: Config, svc: Service, id: AdId, x: Digest, s1: State, s2: State, s3: State)
    requires svc.adIdentifiers == Ok([id]) && a.adIdentifiers == [id] == b.adIdentifiers
    requires Resolves(env, Match(WithMetrics(env, a), svc), x) && Resolves(env, Match(WithMetrics(env, b), svc), x)
    requires s1 == Step(env, INITIAL, AddService(svc))
    requires s2 == Step(env, s1, AddConfig(a, [svc.entity])) && s3 == Step(env, s2, AddConfig(b, [svc.entity]))
    ensures Visits(s1, [id], [svc.entity]) && Visits(s2, [id], [svc.entity])
    ensures x in Under(env.hash, s3.serviceToConfigs, svc.entity)
    ensures x in Under(env.hash, s3.templateToConfigs, DigestOf(env.hash, WithMetrics(env, a)))
    ensures x in Under(env.hash, s3.templateToConfigs, DigestOf(env.hash, WithMetrics(env, b)))
  {
    var e := svc.entity;
    ServicesAfter(env, INITIAL, AddService(svc));
    RegisteredAt(INITIAL, [id], e, id);
    assert [id][0] in [id] && ServicesAt(s1, id) == {e};
    OneVisit(s1, id, e);
    ServicesAfter(env, s1, AddConfig(a, [e]));
    OneVisit(s2, id, e);
    TriedOn(env, s1, a, [e], id, e, x);
    TriedOn(env, s2, b, [e], id, e, x);
    NewConfigLonger(env, s2, b, [e]);
  }

  /** Two templates that a service resolves to one digest: removing the first unloads what the second still gives. */
  lemma SharedDigestUnloaded(env: Env, u: Universe, a: Config, b: Config, svc: Service, id: AdId, x: Digest)
    requires u.service(svc) && u.config(a) && u.config(b) && u.gone(a)
    requires svc.adIdentifiers == Ok([id]) && a.adIdentifiers == [id] == b.adIdentifiers
    requires Resolves(env, Match(WithMetrics(env, a), svc), x) && Resolves(env, Match(WithMetrics(env, b), svc), x)
    requires DigestOf(env.hash, WithMetrics(env, a)) == DigestOf(env.hash, a) != DigestOf(env.hash, WithMetrics(env, b))
    ensures RunOf(env, u, SharingRun(a, b, svc))
    ensures var s := Run(env, SharingRun(a, b, svc)); Owed(env, s, x) && x !in s.loadedConfigs && x !in s.active
  {
    var ops := SharingRun(a, b, svc);
    var s1 := Step(env, INITIAL, ops[0]);
    var s2 := Step(env, s1, ops[1]);
    var s3 := Step(env, s2, ops[2]);
    SharingLists(env, a, b, svc, id, x, s1, s2, s3);
    FourOps(env, u, s1, s2, s3, ops);
    DropsTemplate(env, s3, a, svc.entity, DigestOf(env.hash, WithMetrics(env, b)), x);
  }
}
