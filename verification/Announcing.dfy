/**
 What the schedulers are told over whole runs of AutoConfigRuns, and what the store lists meanwhile. Main results:
 HeldIsLoaded, ScheduledIsLoaded, AnnouncedInOrder, ListedInOrder.
 */
module Announcing {
  import opened Integration
  import opened Wrappers
  import opened AutoConfig
  import opened AutoConfigRuns
  import CP = ConfigPoller
  import D = Decryption
  import TC = TemplateCache

  // ----- one operation -----

  /** What an operation tells the schedulers. The configurations that a template resolves to may come in any order. */
  ghost predicate Tells(env: Env, s: State, op: Op, events: seq<Event>) {
    match op
    case AddService(svc) => events == ServiceTells(env, s, svc)
    case RemoveService(e) => events == [Unschedule(ListOf(s.serviceToConfigs, e)), UnscheduleService(e)]
    case AddConfig(c, visits) => exists configs :: events == [Schedule(configs)] && Returned(env, s, c, visits, configs)
    case RemoveConfigs(cs) => events == [Unschedule(cs)]
    case RemoveTemplates(cs) => events == Withdrawals(env.hash, s.templateToConfigs, cs)
  }

  function ServiceTells(env: Env, s: State, svc: Service): seq<Event> {
    match svc.adIdentifiers
    case Err => []
    case Ok(ids) => Announcements(env, MatchAll(TemplatesFor(s.cache, ids), svc)) + [ScheduleService(svc.entity)]
  }

  function ToldAll(hash: string -> Digest, held: map<Digest, Config>, events: seq<Event>): map<Digest, Config> {
    if events == [] then held else Told(hash, ToldAll(hash, held, events[..|events| - 1]), events[|events| - 1])
  }

  lemma {:induction false} ToldConcat(hash: string -> Digest, held: map<Digest, Config>, a: seq<Event>, b: seq<Event>)
    ensures ToldAll(hash, held, a + b) == ToldAll(hash, ToldAll(hash, held, a), b)
  {
    if b == [] {
      assert a + b == a;
    } else {
      assert (a + b)[..|a| + |b| - 1] == a + b[..|b| - 1];
      ToldConcat(hash, held, a, b[..|b| - 1]);
    }
  }

  lemma ToldOne(hash: string -> Digest, held: map<Digest, Config>, e: Event)
    ensures ToldAll(hash, held, [e]) == Told(hash, held, e)
  {
    assert [e][..0] == [];
  }

  lemma {:induction false} AnnouncementsTell(env: Env, held: map<Digest, Config>, matches: seq<Match>)
    ensures ToldAll(env.hash, held, Announcements(env, matches)) == held + ResolvedMap(env, matches)
  {
    if matches == [] {
      assert held + map[] == held;
    } else {
      var front, m := matches[..|matches| - 1], matches[|matches| - 1];
      AnnouncementsTell(env, held, front);
      match ResolvedConfig(env, m.tpl, m.svc)
      case Err => assert Announcements(env, front) + [] == Announcements(env, front);
      case Ok(c) =>
        ToldConcat(env.hash, held, Announcements(env, front), [Schedule([c])]);
        ToldOne(env.hash, held + ResolvedMap(env, front), Schedule([c]));
        OneOrNone(env.hash, held + ResolvedMap(env, front), [c]);
        MergedMore(held, ResolvedMap(env, front), {}, DigestOf(env.hash, c), c);
    }
  }

  lemma {:induction false} WithdrawalsTell(env: Env, s: State, cs: seq<Config>)
    ensures ToldAll(env.hash, s.loadedConfigs, Withdrawals(env.hash, s.templateToConfigs, cs)) == RemovedTemplates(env, s, cs).loadedConfigs
  {
    if cs != [] {
      var front, c := cs[..|cs| - 1], cs[|cs| - 1];
      var before, d := RemovedTemplates(env, s, front), DigestOf(env.hash, c);
      WithdrawalsTell(env, s, front);
      RemovedTemplatesAre(env, s, front);
      if c.IsTemplate() {
        var list := if d in TemplateDigests(env.hash, front) then [] else ListOf(s.templateToConfigs, d);
        assert list == ListOf(before.templateToConfigs, d);
        ToldConcat(env.hash, s.loadedConfigs, Withdrawals(env.hash, s.templateToConfigs, front), [Unschedule(list)]);
        ToldOne(env.hash, before.loadedConfigs, Unschedule(list));
      } else {
        assert Withdrawals(env.hash, s.templateToConfigs, front) + [] == Withdrawals(env.hash, s.templateToConfigs, front);
      }
    }
  }

  lemma ServiceTold(env: Env, s: State, svc: Service)
    ensures ToldAll(env.hash, s.loadedConfigs, ServiceTells(env, s, svc)) == NewService(env, s, svc).loadedConfigs
  {
    if svc.adIdentifiers.Ok? {
      var matches := MatchAll(TemplatesFor(s.cache, svc.adIdentifiers.value), svc);
      AnnouncementsTell(env, s.loadedConfigs, matches);
      ToldConcat(env.hash, s.loadedConfigs, Announcements(env, matches), [ScheduleService(svc.entity)]);
      ToldOne(env.hash, s.loadedConfigs + ResolvedMap(env, matches), ScheduleService(svc.entity));
      ResolvedLoads(env, s.(entityToService := s.entityToService[svc.entity := svc],
                            adIDToServices := Registered(s.adIDToServices, svc.adIdentifiers.value, svc.entity)), matches);
    }
  }

  lemma ConfigTold(env: Env, s: State, raw: Config, visits: seq<Entity>, configs: seq<Config>)
    requires Returned(env, s, raw, visits, configs)
    ensures WithAll(env.hash, s.loadedConfigs, configs) == NewConfig(env, s, raw, visits).loadedConfigs
  {
    WithAllMerges(env.hash, s.loadedConfigs, configs);
    if raw.IsTemplate() {
      NewLoaded(env, s, raw, visits);
    } else {
      OneOrNone(env.hash, s.loadedConfigs, configs);
    }
  }

  lemma StepTold(env: Env, s: State, op: Op, events: seq<Event>)
    requires Tells(env, s, op, events)
    ensures ToldAll(env.hash, s.loadedConfigs, events) == Step(env, s, op).loadedConfigs
  {
    match op
    case AddService(svc) => ServiceTold(env, s, svc);
    case RemoveService(e) =>
      ToldConcat(env.hash, s.loadedConfigs, [Unschedule(ListOf(s.serviceToConfigs, e))], [UnscheduleService(e)]);
      ToldOne(env.hash, s.loadedConfigs, Unschedule(ListOf(s.serviceToConfigs, e)));
      ToldOne(env.hash, s.loadedConfigs - CP.Digests(env.hash, ListOf(s.serviceToConfigs, e)), UnscheduleService(e));
      assert [Unschedule(ListOf(s.serviceToConfigs, e))] + [UnscheduleService(e)] == events;
    case AddConfig(c, visits) =>
      var configs :| events == [Schedule(configs)] && Returned(env, s, c, visits, configs);
      ToldOne(env.hash, s.loadedConfigs, Schedule(configs));
      ConfigTold(env, s, c, visits, configs);
    case RemoveConfigs(cs) => ToldOne(env.hash, s.loadedConfigs, Unschedule(cs));
    case RemoveTemplates(cs) => WithdrawalsTell(env, s, cs);
  }

  // ----- whole runs -----

  ghost predicate RunTells(env: Env, ops: seq<Op>, events: seq<seq<Event>>) {
    |events| == |ops| && forall i :: 0 <= i < |ops| ==> Tells(env, Run(env, ops[..i]), ops[i], events[i])
  }

  function Flat(events: seq<seq<Event>>): seq<Event> {
    if events == [] then [] else Flat(events[..|events| - 1]) + events[|events| - 1]
  }

  lemma {:induction false} HeldIsTold(hash: string -> Digest, events: seq<Event>)
    ensures Held(hash, events) == ToldAll(hash, map[], events)
  {
    if events != [] {
      HeldIsTold(hash, events[..|events| - 1]);
    }
  }

  lemma {:induction false} RunTold(env: Env, ops: seq<Op>, events: seq<seq<Event>>)
    requires RunTells(env, ops, events)
    ensures ToldAll(env.hash, map[], Flat(events)) == Run(env, ops).loadedConfigs
  {
    if ops != [] {
      var n := |ops| - 1;
      assert forall i :: 0 <= i < n ==> ops[..n][..i] == ops[..i];
      RunTold(env, ops[..n], events[..n]);
      ToldConcat(env.hash, map[], Flat(events[..n]), events[n]);
      StepTold(env, Run(env, ops[..n]), ops[n], events[n]);
    }
  }

  /** Over every run the schedulers hold under each digest the very configuration that is loaded under it, and nothing else. */
  lemma HeldIsLoaded(env: Env, ops: seq<Op>, events: seq<seq<Event>>)
    requires RunTells(env, ops, events)
    ensures Held(env.hash, Flat(events)) == Run(env, ops).loadedConfigs
  {
    RunTold(env, ops, events);
    HeldIsTold(env.hash, Flat(events));
  }

  // ----- what is announced -----

  /** After the matches up to this position have been tried, this is loaded. */
  predicate IsLoaded(env: Env, s: State, matches: seq<Match>, at: nat, c: Config)
    requires at < |matches|
  {
    var loaded := Resolved(env, s, matches[..at + 1]).loadedConfigs;
    DigestOf(env.hash, c) in loaded && loaded[DigestOf(env.hash, c)] == c
  }

  /** The announcement is for what the match at this position resolves to, which is loaded when it is announced. */
  predicate AnnouncedFor(env: Env, s: State, matches: seq<Match>, at: nat, e: Event) {
    && at < |matches| && ResolvedConfig(env, matches[at].tpl, matches[at].svc).Ok?
    && e == Schedule([ResolvedConfig(env, matches[at].tpl, matches[at].svc).value])
    && IsLoaded(env, s, matches, at, ResolvedConfig(env, matches[at].tpl, matches[at].svc).value)
  }

  lemma LoadedNow(env: Env, s: State, matches: seq<Match>, n: nat)
    requires n < |matches| && ResolvedConfig(env, matches[n].tpl, matches[n].svc).Ok?
    ensures AnnouncedFor(env, s, matches, n, Schedule([ResolvedConfig(env, matches[n].tpl, matches[n].svc).value]))
  {
    assert matches[..n + 1][..n] == matches[..n];
  }

  /** Some numbers below n, in order. */
  predicate Increasing(at: seq<nat>, n: nat) {
    (forall i, j :: 0 <= i < j < |at| ==> at[i] < at[j]) && forall j :: 0 <= j < |at| ==> at[j] < n
  }

  predicate AllResolving(env: Env, matches: seq<Match>, n: nat, at: seq<nat>)
    requires n <= |matches|
  {
    forall i: nat :: i < n && ResolvedConfig(env, matches[i].tpl, matches[i].svc).Ok? ==> i in at
  }

  ghost predicate AllAnnounced(env: Env, s: State, matches: seq<Match>, at: seq<nat>, events: seq<Event>) {
    |at| == |events| && forall j :: 0 <= j < |at| ==> AnnouncedFor(env, s, matches, at[j], events[j])
  }

  /** The positions of the matches among the first n that resolve, in order; the announcements are for them. */
  ghost predicate Announced(env: Env, s: State, matches: seq<Match>, n: nat, at: seq<nat>, events: seq<Event>) {
    n <= |matches| && Increasing(at, n) && AllResolving(env, matches, n, at) && AllAnnounced(env, s, matches, at, events)
  }

  lemma AllAnnouncedMore(env: Env, s: State, matches: seq<Match>, at: seq<nat>, events: seq<Event>, n: nat, e: Event)
    requires AllAnnounced(env, s, matches, at, events) && AnnouncedFor(env, s, matches, n, e)
    ensures AllAnnounced(env, s, matches, at + [n], events + [e])
  {}

  lemma AllResolvingMore(env: Env, matches: seq<Match>, n: nat, at: seq<nat>)
    requires n < |matches| && AllResolving(env, matches, n, at)
    ensures AllResolving(env, matches, n + 1, at + [n])
    ensures ResolvedConfig(env, matches[n].tpl, matches[n].svc).Err? ==> AllResolving(env, matches, n + 1, at)
  {
    assert forall i :: i in at + [n] <==> i in at || i == n;
  }

  lemma IncreasingMore(at: seq<nat>, n: nat)
    requires Increasing(at, n)
    ensures Increasing(at, n + 1) && Increasing(at + [n], n + 1)
  {}

  lemma NotAnnounced(env: Env, s: State, matches: seq<Match>, n: nat, at: seq<nat>, events: seq<Event>)
    requires n < |matches| && Announced(env, s, matches, n, at, events) && ResolvedConfig(env, matches[n].tpl, matches[n].svc).Err?
    ensures Announced(env, s, matches, n + 1, at, events)
  {
    IncreasingMore(at, n);
    AllResolvingMore(env, matches, n, at);
  }

  lemma NextAnnounced(env: Env, s: State, matches: seq<Match>, n: nat, at: seq<nat>, events: seq<Event>)
    requires n < |matches| && Announced(env, s, matches, n, at, events) && ResolvedConfig(env, matches[n].tpl, matches[n].svc).Ok?
    ensures Announced(env, s, matches, n + 1, at + [n], events + [Schedule([ResolvedConfig(env, matches[n].tpl, matches[n].svc).value])])
  {
    IncreasingMore(at, n);
    AllResolvingMore(env, matches, n, at);
    LoadedNow(env, s, matches, n);
    AllAnnouncedMore(env, s, matches, at, events, n, Schedule([ResolvedConfig(env, matches[n].tpl, matches[n].svc).value]));
  }

  /** There is one announcement for each match that resolves, in order, and each is for what is loaded at that moment. */
  lemma {:induction false} AnnouncedInOrder(env: Env, s: State, matches: seq<Match>, n: nat) returns (at: seq<nat>)
    requires n <= |matches|
    ensures Announced(env, s, matches, n, at, Announcements(env, matches[..n]))
  {
    if n == 0 {
      at := [];
    } else {
      at := AnnouncedInOrder(env, s, matches, n - 1);
      assert matches[..n][..n - 1] == matches[..n - 1];
      if ResolvedConfig(env, matches[n - 1].tpl, matches[n - 1].svc).Ok? {
        NextAnnounced(env, s, matches, n - 1, at, Announcements(env, matches[..n - 1]));
        at := at + [n - 1];
      } else {
        NotAnnounced(env, s, matches, n - 1, at, Announcements(env, matches[..n - 1]));
        assert Announcements(env, matches[..n - 1]) + [] == Announcements(env, matches[..n - 1]);
      }
    }
  }

  lemma {:induction false} WithAllHas(hash: string -> Digest, configs: seq<Config>, c: Config)
    requires c in configs && |configs| == |WithAll(hash, map[], configs)|
    ensures DigestOf(hash, c) in WithAll(hash, map[], configs) && WithAll(hash, map[], configs)[DigestOf(hash, c)] == c
  {
    var front, last := configs[..|configs| - 1], configs[|configs| - 1];
    WithAllSize(hash, front);
    assert configs == front + [last];
    assert WithAll(hash, map[], configs) == WithAll(hash, map[], front)[DigestOf(hash, last) := last];
    if DigestOf(hash, last) in WithAll(hash, map[], front) {
      assert false;
    } else {
      assert WithAll(hash, map[], configs).Keys == WithAll(hash, map[], front).Keys + {DigestOf(hash, last)};
      assert |WithAll(hash, map[], configs).Keys| == |WithAll(hash, map[], front).Keys| + 1;
      if c in front {
        WithAllHas(hash, front, c);
      }
    }
  }

  lemma {:induction false} WithAllSize(hash: string -> Digest, configs: seq<Config>)
    ensures |WithAll(hash, map[], configs)| <= |configs|
  {
    if configs != [] {
      var front, last := configs[..|configs| - 1], configs[|configs| - 1];
      WithAllSize(hash, front);
      assert WithAll(hash, map[], configs).Keys == WithAll(hash, map[], front).Keys + {DigestOf(hash, last)};
      assert |WithAll(hash, map[], configs).Keys| <= |WithAll(hash, map[], front).Keys| + 1;
    }
  }

  /** Whatever a new configuration has scheduled is loaded at that moment, as it was scheduled. */
  lemma ScheduledIsLoaded(env: Env, s: State, raw: Config, visits: seq<Entity>, configs: seq<Config>, c: Config)
    requires Returned(env, s, raw, visits, configs) && c in configs
    ensures var loaded := NewConfig(env, s, raw, visits).loadedConfigs;
            DigestOf(env.hash, c) in loaded && loaded[DigestOf(env.hash, c)] == c
  {
    ConfigTold(env, s, raw, visits, configs);
    if raw.IsTemplate() {
      WithAllHas(env.hash, configs, c);
      WithAllMerges(env.hash, s.loadedConfigs, configs);
    } else {
      OneOrNone(env.hash, s.loadedConfigs, configs);
    }
  }

  // ----- what the store lists -----

  /** What the matches that satisfy a condition resolve to, in order. */
  function Results(env: Env, matches: seq<Match>, keep: Match -> bool): seq<Config> {
    if matches == [] then []
    else
      var m := matches[|matches| - 1];
      Results(env, matches[..|matches| - 1], keep) +
      if keep(m) && ResolvedConfig(env, m.tpl, m.svc).Ok? then [ResolvedConfig(env, m.tpl, m.svc).value] else []
  }

  function ForService(e: Entity): Match -> bool {
    (m: Match) => m.svc.entity == e
  }

  function OfTemplate(env: Env, d: Digest): Match -> bool {
    (m: Match) => DigestOf(env.hash, m.tpl) == d
  }

  function Giving(env: Env, d: Digest): Match -> bool {
    (m: Match) => ResolvedConfig(env, m.tpl, m.svc).Ok? && DigestOf(env.hash, ResolvedConfig(env, m.tpl, m.svc).value) == d
  }

  lemma {:induction false} ResultsMore(env: Env, matches: seq<Match>, keep: Match -> bool)
    requires matches != []
    ensures var front, m := matches[..|matches| - 1], matches[|matches| - 1];
            Results(env, matches, keep) ==
            Results(env, front, keep) + if keep(m) && ResolvedConfig(env, m.tpl, m.svc).Ok? then [ResolvedConfig(env, m.tpl, m.svc).value] else []
  {}

  lemma {:induction false} ListsMore(env: Env, s: State, matches: seq<Match>, e: Entity, d: Digest)
    requires matches != []
    ensures var front, m := matches[..|matches| - 1], matches[|matches| - 1];
            var before, after := Resolved(env, s, front), Resolved(env, s, matches);
            match ResolvedConfig(env, m.tpl, m.svc)
            case Err => after.serviceToConfigs == before.serviceToConfigs && after.templateToConfigs == before.templateToConfigs
            case Ok(c) =>
              && ListOf(after.serviceToConfigs, e) == ListOf(before.serviceToConfigs, e) + (if m.svc.entity == e then [c] else [])
              && ListOf(after.templateToConfigs, d) == ListOf(before.templateToConfigs, d) + if DigestOf(env.hash, m.tpl) == d then [c] else []
  {}

  /** What is resolved is listed in order under its service. */
  lemma {:induction false} ListedInOrder(env: Env, s: State, matches: seq<Match>, e: Entity)
    ensures ListOf(Resolved(env, s, matches).serviceToConfigs, e) == ListOf(s.serviceToConfigs, e) + Results(env, matches, ForService(e))
  {
    if matches != [] {
      ListedInOrder(env, s, matches[..|matches| - 1], e);
      ResultsMore(env, matches, ForService(e));
      ListsMore(env, s, matches, e, Digest(""));
    }
  }

  /** And under the digest of its template. */
  lemma {:induction false} FiledInOrder(env: Env, s: State, matches: seq<Match>, d: Digest)
    ensures ListOf(Resolved(env, s, matches).templateToConfigs, d) == ListOf(s.templateToConfigs, d) + Results(env, matches, OfTemplate(env, d))
  {
    if matches != [] {
      FiledInOrder(env, s, matches[..|matches| - 1], d);
      ResultsMore(env, matches, OfTemplate(env, d));
      ListsMore(env, s, matches, Entity(""), d);
    }
  }

  lemma {:induction false} GivenMore(env: Env, matches: seq<Match>, d: Digest)
    requires matches != []
    ensures var front, m := matches[..|matches| - 1], matches[|matches| - 1];
            Results(env, matches, Giving(env, d)) ==
            Results(env, front, Giving(env, d)) +
            match ResolvedConfig(env, m.tpl, m.svc)
            case Err => []
            case Ok(c) => if DigestOf(env.hash, c) == d then [c] else []
  {}

  lemma {:induction false} LoadedMore(env: Env, s: State, matches: seq<Match>)
    requires matches != []
    ensures var front, m := matches[..|matches| - 1], matches[|matches| - 1];
            Resolved(env, s, matches).loadedConfigs ==
            match ResolvedConfig(env, m.tpl, m.svc)
            case Err => Resolved(env, s, front).loadedConfigs
            case Ok(c) => Resolved(env, s, front).loadedConfigs[DigestOf(env.hash, c) := c]
  {}

  /** Of one digest the last is loaded. */
  lemma {:induction false} LastIsLoaded(env: Env, s: State, matches: seq<Match>, d: Digest)
    ensures var loaded, given := Resolved(env, s, matches).loadedConfigs, Results(env, matches, Giving(env, d));
            && (given != [] ==> d in loaded && loaded[d] == given[|given| - 1])
            && (given == [] ==> (d in loaded <==> d in s.loadedConfigs) && (d in loaded ==> loaded[d] == s.loadedConfigs[d]))
  {
    if matches != [] {
      LastIsLoaded(env, s, matches[..|matches| - 1], d);
      GivenMore(env, matches, d);
      LoadedMore(env, s, matches);
    }
  }

  /** A service is registered under each of its identifiers, beside those that are, and matched with their templates in turn. */
  lemma {:induction false} RegisteredUnder(index: map<AdId, set<Entity>>, ids: seq<AdId>, e: Entity, id: AdId, f: Entity)
    ensures (id in Registered(index, ids, e) && f in Registered(index, ids, e)[id]) <==>
              ((id in index && f in index[id]) || (id in ids && f == e))
  {
    if ids != [] {
      RegisteredUnder(index, ids[..|ids| - 1], e, id, f);
      assert ids == ids[..|ids| - 1] + [ids[|ids| - 1]];
    }
  }

  lemma TemplatesInTurn(cache: TC.State, a: seq<AdId>, id: AdId)
    ensures TemplatesFor(cache, []) == [] && TemplatesFor(cache, a + [id]) == TemplatesFor(cache, a) + TC.Found(cache, id)
  {
    assert (a + [id])[..|a|] == a;
  }

  lemma KnownInTurn(s: State, tpl: Config, visits: seq<Entity>, e: Entity)
    ensures Known(s, tpl, []) == []
    ensures Known(s, tpl, visits + [e]) == Known(s, tpl, visits) + if e in s.entityToService then [Match(tpl, s.entityToService[e])] else []
  {
    assert (visits + [e])[..|visits|] == visits;
  }

  // ----- one handler at a time -----

  /** Resolving, then decrypting: a template resolves for a service exactly when both succeed. */
  lemma ResolvedIff(env: Env, tpl: Config, svc: Service, c: Config)
    ensures ResolvedConfig(env, tpl, svc) == Ok(c) <==> env.resolve(tpl, svc).Ok? && D.Decrypted(env.secrets, env.resolve(tpl, svc).value) == Ok(c)
  {}

  /** A removal takes out exactly what has a digest of the list, and touches no list. */
  lemma RemovedAre(env: Env, s: State, configs: seq<Config>, d: Digest)
    ensures var s', named := Removed(env, s, configs), exists i :: 0 <= i < |configs| && DigestOf(env.hash, configs[i]) == d;
            && (d in s'.loadedConfigs <==> d in s.loadedConfigs && !named)
            && (d in s'.loadedConfigs ==> s'.loadedConfigs[d] == s.loadedConfigs[d])
            && (d in s'.active <==> d in s.active && !named) && (d in s'.plain <==> d in s.plain && !named)
            && s'.serviceToConfigs == s.serviceToConfigs && s'.templateToConfigs == s.templateToConfigs
            && s'.adIDToServices == s.adIDToServices && s'.entityToService == s.entityToService && s'.cache == s.cache
  {}

  /** A service that goes takes its list along, and what is on it. */
  lemma ServiceGone(env: Env, s: State, e: Entity)
    ensures var s' := DelService(env, s, e);
            && e !in s'.entityToService && e !in s'.serviceToConfigs
            && (forall f :: f != e ==> (f in s'.entityToService <==> f in s.entityToService) && (f in s'.serviceToConfigs <==> f in s.serviceToConfigs))
            && (forall f :: f in s'.entityToService ==> s'.entityToService[f] == s.entityToService[f])
            && (forall f :: f in s'.serviceToConfigs ==> s'.serviceToConfigs[f] == s.serviceToConfigs[f])
            && s'.loadedConfigs == Removed(env, s, ListOf(s.serviceToConfigs, e)).loadedConfigs
            && s'.templateToConfigs == s.templateToConfigs && s'.adIDToServices == s.adIDToServices && s'.cache == s.cache
  {}

  /** The metrics of a JMX check go into init_config and nowhere else. */
  lemma MetricsOnly(env: Env, c: Config)
    ensures WithMetrics(env, c).initConfig == env.initConfig(c)
    ensures WithMetrics(env, c).(initConfig := c.initConfig) == c
  {}

  /** A service that comes is known, whether or not its identifiers are; with them it is listed with all that its templates resolve to. */
  lemma ServiceArrives(env: Env, s: State, svc: Service, e: Entity, d: Digest, id: AdId)
    ensures var s' := NewService(env, s, svc);
            && s'.entityToService == s.entityToService[svc.entity := svc] && s'.cache == s.cache && s'.plain == s.plain
            && match svc.adIdentifiers
               case Err => s' == s.(entityToService := s'.entityToService)
               case Ok(ids) =>
                 var matches := MatchAll(TemplatesFor(s.cache, ids), svc);
                 && ListOf(s'.serviceToConfigs, e) == ListOf(s.serviceToConfigs, e) + Results(env, matches, ForService(e))
                 && ListOf(s'.templateToConfigs, d) == ListOf(s.templateToConfigs, d) + Results(env, matches, OfTemplate(env, d))
                 && ((id in s'.adIDToServices && e in s'.adIDToServices[id]) <==>
                     ((id in s.adIDToServices && e in s.adIDToServices[id]) || (id in ids && e == svc.entity)))
  {
    if svc.adIdentifiers.Ok? {
      var ids := svc.adIdentifiers.value;
      var matches := MatchAll(TemplatesFor(s.cache, ids), svc);
      var s1 := s.(entityToService := s.entityToService[svc.entity := svc], adIDToServices := Registered(s.adIDToServices, ids, svc.entity));
      ListedInOrder(env, s1, matches, e);
      FiledInOrder(env, s1, matches, d);
      ResolvedSameServices(env, s1, matches);
      ResolvedSameCache(env, s1, matches);
      ResolvedSamePlain(env, s1, matches);
      RegisteredUnder(s.adIDToServices, ids, svc.entity, id, e);
    }
  }

  /** A new template is cached and listed with all that it resolves to; any other configuration is loaded as it decrypts, or dropped. */
  lemma ConfigArrives(env: Env, s: State, raw: Config, visits: seq<Entity>, e: Entity, d: Digest)
    ensures var s', c := NewConfig(env, s, raw, visits), WithMetrics(env, raw);
            && s'.entityToService == s.entityToService && s'.adIDToServices == s.adIDToServices
            && if raw.adIdentifiers != [] then
                 && s'.cache == TC.Stored(env.hash, s.cache, c) && s'.plain == s.plain
                 && ListOf(s'.serviceToConfigs, e) == ListOf(s.serviceToConfigs, e) + Results(env, Known(s, c, visits), ForService(e))
                 && ListOf(s'.templateToConfigs, d) == ListOf(s.templateToConfigs, d) + Results(env, Known(s, c, visits), OfTemplate(env, d))
               else
                 && s'.cache == s.cache && s'.serviceToConfigs == s.serviceToConfigs && s'.templateToConfigs == s.templateToConfigs
                 && match D.Decrypted(env.secrets, c)
                    case Err => s' == s
                    case Ok(plain) =>
                      && s'.loadedConfigs == s.loadedConfigs[DigestOf(env.hash, plain) := plain]
                      && s'.plain == s.plain + {DigestOf(env.hash, plain)}
  {
    var c := WithMetrics(env, raw);
    if raw.IsTemplate() {
      var s1 := s.(cache := TC.Stored(env.hash, s.cache, c));
      KnownSame(s, s1, c, visits);
      ListedInOrder(env, s1, Known(s, c, visits), e);
      FiledInOrder(env, s1, Known(s, c, visits), d);
      ResolvedSameServices(env, s1, Known(s, c, visits));
      ResolvedSameCache(env, s1, Known(s, c, visits));
      ResolvedSamePlain(env, s1, Known(s, c, visits));
    }
  }

  /** A template that goes takes along what is filed under it and leaves the cache; any other configuration does nothing here. */
  lemma TemplateGone(env: Env, s: State, c: Config)
    ensures var s', d := RemovedTemplate(env, s, c), DigestOf(env.hash, c);
            if c.adIdentifiers == [] then s' == s
            else
              && d !in s'.templateToConfigs && (forall x :: x != d ==> (x in s'.templateToConfigs <==> x in s.templateToConfigs))
              && (forall x :: x in s'.templateToConfigs ==> s'.templateToConfigs[x] == s.templateToConfigs[x])
              && s'.loadedConfigs == Removed(env, s, ListOf(s.templateToConfigs, d)).loadedConfigs
              && s'.cache == TC.Deleted(env.hash, s.cache, c)
              && s'.serviceToConfigs == s.serviceToConfigs && s'.entityToService == s.entityToService && s'.adIDToServices == s.adIDToServices
  {}
}
