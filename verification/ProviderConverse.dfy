/**
 What the pollers hold against what is loaded and cached, in the other direction than ProviderRuns: when everything
 held is loaded or cached, and when nothing is left once no poller holds anything. Nothing counts the holders of a
 digest, so this fails as soon as two of them share one. Main results: ReturnedLoadedIff, CachedAllIff, NothingLeftIff.
 */
module ProviderConverse {
  import opened Integration
  import opened Wrappers
  import opened ConfigPoller
  import opened ProviderRuns
  import M = AutoConfigRuns
  import SD = SharedDigests
  import T = TemplateRuns
  import TC = TemplateCache

  // ----- a run of polls is a run of AutoConfigRuns -----

  /** What a poller may hold: a configuration as it was returned, or as processing left it. */
  ghost predicate MayHold(env: M.Env, src: Sources, p: Provider, c: Config) {
    exists b :: src.may(p, b) && (c == b || c == M.Kept(env, b))
  }

  ghost function UniverseOf(env: M.Env, src: Sources): T.Universe {
    T.Universe(c => exists p :: src.may(p, c), c => exists p :: MayHold(env, src, p, c), src.service)
  }

  ghost predicate HeldFrom(env: M.Env, src: Sources, s: State) {
    forall p, c :: p in s.stored && c in s.stored[p] ==> MayHold(env, src, p, c)
  }

  lemma PollHeldFrom(env: M.Env, src: Sources, s: State, p: Provider, fetched: seq<Config>, visits: seq<seq<M.Entity>>)
    requires HeldFrom(env, src, s) && forall c :: c in fetched ==> src.may(p, c)
    ensures HeldFrom(env, src, Step(env, s, Poll(p, Ok(fetched), visits)))
  {
    var stored := StoredAfter(env.hash, Rewrite(env), KnownTo(s, p), fetched);
    forall c | c in stored
      ensures MayHold(env, src, p, c)
    {
      var i :| 0 <= i < |stored| && stored[i] == c;
      assert fetched[i] in fetched;
    }
  }

  lemma {:induction false} AddsReached(env: M.Env, src: Sources, p: Provider, a: M.State, cs: seq<Config>, visits: seq<seq<M.Entity>>, n: nat)
    requires T.Reached(env, UniverseOf(env, src), a) && n <= |cs|
    requires AllVisits(env, a, cs, visits) && forall c :: c in cs ==> src.may(p, c)
    ensures T.Reached(env, UniverseOf(env, src), AddAll(env, a, cs[..n], visits))
  {
    if n > 0 {
      AddsReached(env, src, p, a, cs, visits, n - 1);
      var before := AddAll(env, a, cs[..n - 1], visits);
      assert cs[..n][..n - 1] == cs[..n - 1] && cs[n - 1] in cs;
      T.ReachedNext(env, UniverseOf(env, src), before, M.AddConfig(cs[n - 1], visits[n - 1]));
    }
  }

  lemma PollReached(env: M.Env, src: Sources, s: State, p: Provider, fetched: seq<Config>, visits: seq<seq<M.Entity>>)
    requires T.Reached(env, UniverseOf(env, src), s.auto) && HeldFrom(env, src, s) && Fits(env, src, s, Poll(p, Ok(fetched), visits))
    ensures T.Reached(env, UniverseOf(env, src), Step(env, s, Poll(p, Ok(fetched), visits)).auto)
  {
    var u, known := UniverseOf(env, src), KnownTo(s, p);
    var d := DiffOf(env.hash, known, Ok(fetched));
    forall c | c in d.removed
      ensures u.gone(c)
    {
      MissingIsIn(env.hash, known, fetched, c);
      assert MayHold(env, src, p, c);
    }
    forall c | c in d.added
      ensures src.may(p, c)
    {
      MissingIsIn(env.hash, fetched, known, c);
    }
    T.ReachedNext(env, u, s.auto, M.RemoveConfigs(d.removed));
    T.ReachedNext(env, u, M.Removed(env, s.auto, d.removed), M.RemoveTemplates(d.removed));
    AddsReached(env, src, p, Emptied(env, s.auto, d.removed), d.added, visits, |d.added|);
    assert d.added[..|d.added|] == d.added;
  }

  lemma {:induction false} MissingIsIn(hash: string -> Digest, configs: seq<Config>, from: seq<Config>, c: Config)
    requires c in Missing(hash, configs, from)
    ensures c in configs
  {
    var n := |configs| - 1;
    if c in Missing(hash, configs[..n], from) {
      MissingIsIn(hash, configs[..n], from, c);
    }
  }

  lemma {:induction false} RunReached(env: M.Env, src: Sources, ops: seq<Op>)
    requires RunOf(env, src, ops)
    ensures T.Reached(env, UniverseOf(env, src), Run(env, ops).auto) && HeldFrom(env, src, Run(env, ops))
  {
    if ops == [] {
      T.ReachedFirst(env, UniverseOf(env, src));
    } else {
      var s, op := Run(env, ops[..|ops| - 1]), ops[|ops| - 1];
      RunReached(env, src, ops[..|ops| - 1]);
      match op
      case Poll(p, Err, _) =>
      case Poll(p, Ok(fetched), visits) =>
        PollReached(env, src, s, p, fetched, visits);
        PollHeldFrom(env, src, s, p, fetched, visits);
      case AddService(svc) => T.ReachedNext(env, UniverseOf(env, src), s.auto, M.AddService(svc));
      case RemoveService(e) => T.ReachedNext(env, UniverseOf(env, src), s.auto, M.RemoveService(e));
    }
  }

  // ----- nothing is left -----

  ghost predicate NoneHeld(s: State) {
    forall p :: p in s.stored ==> s.stored[p] == []
  }

  ghost predicate NothingThere(s: State) {
    s.auto.loadedConfigs == map[] && s.auto.active == {} && s.auto.cache.digestToTemplate == map[]
  }

  /** The conditions of ProviderRuns, and no service that resolves what a clash of digests leaves in the template cache. */
  ghost predicate Clean(env: M.Env, src: Sources) {
    && AllSame(env, src) && AllCachedSame(env, src) && KindsApart(env, src)
    && T.NoStaleLoad(env, UniverseOf(env, src))
  }

  lemma NothingLeft(env: M.Env, src: Sources, ops: seq<Op>)
    requires RunOf(env, src, ops) && Clean(env, src) && NoneHeld(Run(env, ops))
    ensures NothingThere(Run(env, ops))
  {
    var s := Run(env, ops);
    RunCovered(env, ops);
    RunHeld(env, src, ops);
    RunCached(env, src, ops);
    RunReached(env, src, ops);
    assert s.auto.plain == {};
    assert s.auto.cache.digestToTemplate.Keys == {};
    T.NoTemplateNoneLoaded(env, UniverseOf(env, src), s.auto);
    assert s.auto.loadedConfigs.Keys == {};
  }

  /** The index of the cache names a digest that is not cached. */
  ghost predicate Stale(cache: TC.State, id: AdId, d: Digest) {
    d in TC.ListOf(cache.adIDToDigests, id) && d !in cache.digestToADId
  }

  lemma StaleSurvives(hash: string -> Digest, cache: TC.State, tpl: Config, id: AdId, d: Digest)
    requires Stale(cache, id, d)
    ensures Stale(TC.Deleted(hash, cache, tpl), id, d)
  {
    TC.SplicedCounts(cache.adIDToDigests, tpl.adIdentifiers, DigestOf(hash, tpl), id, d);
    assert multiset(TC.ListOf(cache.adIDToDigests, id))[d] > 0;
    assert multiset(TC.ListOf(TC.Deleted(hash, cache, tpl).adIDToDigests, id))[d] > 0;
  }

  /** Storing another template does not change the entries of a cached digest, and deleting one that names it less leaves some. */
  lemma BecomesStale(env: M.Env, u: T.Universe, cache: TC.State, raw: Config, g: Config, id: AdId, d: Digest)
    requires T.Outlives(env, u, raw, g, id, d) && d !in cache.digestToADId
    ensures var one := TC.Stored(env.hash, cache, M.WithMetrics(env, raw));
            && d in one.digestToADId
            && Stale(TC.Deleted(env.hash, one, g), id, d)
            && Stale(TC.Deleted(env.hash, TC.Stored(env.hash, one, M.WithMetrics(env, g)), g), id, d)
  {
    var one, tpl := TC.Stored(env.hash, cache, M.WithMetrics(env, raw)), M.WithMetrics(env, g);
    T.LeavesStale(env, u, cache, raw, g, id, d);
    if DigestOf(env.hash, tpl) !in one.digestToADId {
      var two, e := TC.Stored(env.hash, one, tpl), DigestOf(env.hash, tpl);
      TC.AppendedLists(one.adIDToDigests, tpl.adIdentifiers, e, id);
      TC.RepeatCounts(e, multiset(tpl.adIdentifiers)[id], d);
      TC.SplicedCounts(one.adIDToDigests, g.adIdentifiers, d, id, d);
      TC.SplicedCounts(two.adIDToDigests, g.adIdentifiers, d, id, d);
      assert multiset(TC.ListOf(TC.Deleted(env.hash, one, g).adIDToDigests, id))[d] > 0;
      assert multiset(TC.ListOf(TC.Deleted(env.hash, two, g).adIDToDigests, id))[d] > 0;
    }
  }

  lemma CacheOfNew(env: M.Env, a: M.State, c: Config, visits: seq<M.Entity>)
    requires c.IsTemplate()
    ensures M.NewConfig(env, a, c, visits).cache == TC.Stored(env.hash, a.cache, M.WithMetrics(env, c))
  {
    T.CacheAfter(env, a, M.AddConfig(c, visits));
  }

  /** Two providers: both templates come, then the second goes, then the first. */
  lemma StaleFromTwo(env: M.Env, src: Sources, q: Provider, raw: Config, r: Provider, g: Config, id: AdId, d: Digest) returns (s: State)
    requires src.may(q, raw) && src.may(r, g) && q != r && T.Outlives(env, UniverseOf(env, src), raw, g, id, d)
    ensures Reached(env, src, s) && NoneHeld(s) && Stale(s.auto.cache, id, d)
  {
    ReachedFirst(env, src);
    var s1, v1 := FetchOne(env, src, INITIAL, q, raw);
    CacheOfNew(env, INITIAL.auto, raw, v1);
    var s2, v2 := FetchOne(env, src, s1, r, g);
    CacheOfNew(env, s1.auto, g, v2);
    var s3 := DropOne(env, src, s2, r, g);
    DroppedCache(env, s2.auto, g);
    BecomesStale(env, UniverseOf(env, src), INITIAL.auto.cache, raw, g, id, d);
    s := DropOne(env, src, s3, q, raw);
    DroppedCache(env, s3.auto, raw);
    StaleSurvives(env.hash, s3.auto.cache, raw, id, d);
  }

  lemma DroppedCache(env: M.Env, a: M.State, c: Config)
    requires c.IsTemplate()
    ensures M.RemovedTemplate(env, M.Removed(env, a, [c]), c).cache == TC.Deleted(env.hash, a.cache, c)
  {}

  /** One provider: the second template takes the place of the first, and goes. */
  lemma StaleFromOne(env: M.Env, src: Sources, q: Provider, raw: Config, g: Config, id: AdId, d: Digest) returns (s: State)
    requires src.may(q, raw) && src.may(q, g) && T.Outlives(env, UniverseOf(env, src), raw, g, id, d)
    ensures Reached(env, src, s) && NoneHeld(s) && Stale(s.auto.cache, id, d)
  {
    var s1, s2, v;
    ReachedFirst(env, src);
    s1, v := FetchOne(env, src, INITIAL, q, raw);
    CacheOfNew(env, INITIAL.auto, raw, v);
    BecomesStale(env, UniverseOf(env, src), INITIAL.auto.cache, raw, g, id, d);
    if DigestOf(env.hash, raw) == d {
      s2 := SwapSame(env, src, s1, q, raw, g);
    } else {
      s2, v := SwapOther(env, src, s1, q, raw, g);
      DroppedCache(env, s1.auto, raw);
      CacheOfNew(env, M.RemovedTemplate(env, M.Removed(env, s1.auto, [raw]), raw), g, v);
      assert s2.auto.cache == TC.Stored(env.hash, s1.auto.cache, M.WithMetrics(env, g));
    }
    s := DropOne(env, src, s2, q, g);
    DroppedCache(env, s2.auto, g);
  }

  lemma StalePolls(env: M.Env, src: Sources, id: AdId, d: Digest) returns (s: State)
    requires T.StaleAt(env, UniverseOf(env, src), id, d)
    ensures Reached(env, src, s) && NoneHeld(s) && Stale(s.auto.cache, id, d)
  {
    var raw, g :| T.Outlives(env, UniverseOf(env, src), raw, g, id, d);
    var q :| src.may(q, raw);
    var r :| MayHold(env, src, r, g);
    var b :| src.may(r, b) && (g == b || g == M.Kept(env, b));
    assert g == b;
    if q == r {
      s := StaleFromOne(env, src, q, raw, g, id, d);
    } else {
      s := StaleFromTwo(env, src, q, raw, r, g, id, d);
    }
  }

  lemma SomethingLeft(env: M.Env, src: Sources) returns (s: State)
    requires !Clean(env, src)
    ensures Reached(env, src, s) && NoneHeld(s) && !NothingThere(s)
  {
    if p, c :| src.may(p, c) && !SameWhenLoaded(env, c) {
      s := StaticStays(env, src, p, c);
    } else if p, c :| src.may(p, c) && !SameWhenCached(env, c) {
      s := TemplateStays(env, src, p, c);
    } else if p, c, f :| src.may(p, c) && src.may(p, f) && c.IsTemplate() && !f.IsTemplate() && DigestOf(env.hash, c) == DigestOf(env.hash, f) {
      s := KindSwapped(env, src, p, c, f);
    } else {
      var id, d, svc :| T.StaleAt(env, UniverseOf(env, src), id, d) && src.service(svc) && id in T.Ids(svc) && M.ResolvedConfig(env, EMPTY, svc).Ok?;
      s := StaleServed(env, src, id, d, svc);
    }
  }

  /** A service resolves the empty template that the stale entry gives it, though no poller holds anything. */
  lemma StaleServed(env: M.Env, src: Sources, id: AdId, d: Digest, svc: M.Service) returns (s: State)
    requires T.StaleAt(env, UniverseOf(env, src), id, d) && src.service(svc) && id in T.Ids(svc) && M.ResolvedConfig(env, EMPTY, svc).Ok?
    ensures Reached(env, src, s) && NoneHeld(s) && s.auto.loadedConfigs != map[]
  {
    var before := StalePolls(env, src, id, d);
    var x := DigestOf(env.hash, M.ResolvedConfig(env, EMPTY, svc).value);
    var ops :| RunOf(env, src, ops) && Run(env, ops) == before;
    RunReached(env, src, ops);
    T.ReachedIndexed(env, UniverseOf(env, src), before.auto);
    ReachedNext(env, src, before, AddService(svc));
    T.ServiceFinds(env, before.auto, svc, id, d, x);
    s := Step(env, before, AddService(svc));
    assert x in s.auto.loadedConfigs;
  }

  /** In every run, whatever services exist, nothing is loaded, scheduled or cached once no poller holds anything: exactly under these conditions. */
  lemma NothingLeftIff(env: M.Env, src: Sources)
    ensures (forall s :: Reached(env, src, s) && NoneHeld(s) ==> NothingThere(s)) <==> Clean(env, src)
  {
    if Clean(env, src) {
      forall s | Reached(env, src, s) && NoneHeld(s)
        ensures NothingThere(s)
      {
        var ops :| RunOf(env, src, ops) && Run(env, ops) == s;
        NothingLeft(env, src, ops);
      }
    } else {
      var s := SomethingLeft(env, src);
    }
  }

  // ----- what is returned is loaded -----

  function LoadedDigest(env: M.Env, c: Config): Digest
    requires LoadedForm(env, c).Some?
  {
    DigestOf(env.hash, LoadedForm(env, c).value)
  }

  /** Every decryptable configuration that a provider returned last is loaded. */
  ghost predicate ReturnedLoaded(env: M.Env, s: State) {
    forall p, c :: c in Latest(s, p) && LoadedForm(env, c).Some? ==> LoadedDigest(env, c) in s.auto.loadedConfigs
  }

  ghost predicate MayHoldDigest(env: M.Env, src: Sources, p: Provider, d: Digest) {
    exists x :: src.may(p, x) && DigestOf(env.hash, M.Kept(env, x)) == d
  }

  /** When `x` is held, `c` is taken for it. */
  ghost predicate TakenFor(env: M.Env, src: Sources, p: Provider, x: Config, c: Config) {
    src.may(p, x) && src.may(p, c) && DigestOf(env.hash, M.Kept(env, x)) == DigestOf(env.hash, c)
  }

  predicate LoadsLike(env: M.Env, x: Config, c: Config)
    requires LoadedForm(env, c).Some?
  {
    LoadedForm(env, x).Some? && LoadedDigest(env, x) == LoadedDigest(env, c)
  }

  /** A decryptable configuration is taken only for those that load the same. */
  ghost predicate KnownAlike(env: M.Env, src: Sources) {
    forall p, x, c :: TakenFor(env, src, p, x, c) && LoadedForm(env, c).Some? ==> LoadsLike(env, x, c)
  }

  /** And if it can be taken for one, nothing else that its provider holds has the digest under which it is loaded. */
  ghost predicate NotDropped(env: M.Env, src: Sources) {
    forall p, x, c :: TakenFor(env, src, p, x, c) && LoadedForm(env, c).Some? && MayHoldDigest(env, src, p, LoadedDigest(env, c)) ==>
      LoadedDigest(env, c) == DigestOf(env.hash, c)
  }

  /** Nothing that another provider holds has that digest. */
  ghost predicate OneHolder(env: M.Env, src: Sources) {
    forall p, q, c :: p != q && src.may(p, c) && LoadedForm(env, c).Some? ==> !MayHoldDigest(env, src, q, LoadedDigest(env, c))
  }

  /** Nor does a template that is tried on a service resolve to it. */
  ghost predicate NotGiven(env: M.Env, src: Sources) {
    forall p, c :: src.may(p, c) && LoadedForm(env, c).Some? ==> !SD.Given(env, UniverseOf(env, src), LoadedDigest(env, c))
  }

  ghost predicate HoldersApart(env: M.Env, src: Sources) {
    KnownAlike(env, src) && NotDropped(env, src) && OneHolder(env, src) && NotGiven(env, src)
  }

  ghost predicate DigestsFrom(env: M.Env, src: Sources, s: State) {
    forall p, d :: d in Digests(env.hash, KnownTo(s, p)) ==> MayHoldDigest(env, src, p, d)
  }

  lemma PollDigestsFrom(env: M.Env, src: Sources, s: State, p: Provider, fetched: seq<Config>, visits: seq<seq<M.Entity>>)
    requires DigestsFrom(env, src, s) && forall c :: c in fetched ==> src.may(p, c)
    ensures DigestsFrom(env, src, Step(env, s, Poll(p, Ok(fetched), visits)))
  {
    var s' := Step(env, s, Poll(p, Ok(fetched), visits));
    forall q, d | d in Digests(env.hash, KnownTo(s', q))
      ensures MayHoldDigest(env, src, q, d)
    {
      if q == p {
        HeldIs(env, KnownTo(s, p), fetched, d);
      }
    }
  }

  /** What is held after a poll was held before, or is a new configuration after processing. */
  lemma HeldIs(env: M.Env, known: seq<Config>, fetched: seq<Config>, d: Digest)
    requires d in Digests(env.hash, StoredAfter(env.hash, Rewrite(env), known, fetched))
    ensures || (d in Digests(env.hash, known) && d in Digests(env.hash, fetched))
            || exists b :: b in fetched && b in Missing(env.hash, fetched, known) && DigestOf(env.hash, M.Kept(env, b)) == d
  {
    var stored := StoredAfter(env.hash, Rewrite(env), known, fetched);
    var i :| 0 <= i < |stored| && DigestOf(env.hash, stored[i]) == d;
    assert fetched[i] in fetched;
    if !Contains(env.hash, known, fetched[i]) {
      PositionsOfMissing(env.hash, fetched, known);
      var at := Positions(env.hash, fetched, known);
      var j :| 0 <= j < |at| && at[j] == i;
      assert Missing(env.hash, fetched, known)[j] == fetched[i];
    }
  }

  lemma {:induction false} AddAllLoads(env: M.Env, a: M.State, cs: seq<Config>, visits: seq<seq<M.Entity>>)
    ensures a.loadedConfigs.Keys <= AddAll(env, a, cs, visits).loadedConfigs.Keys
    ensures forall c :: c in cs && LoadedForm(env, c).Some? ==> DigestOf(env.hash, LoadedForm(env, c).value) in AddAll(env, a, cs, visits).loadedConfigs
  {
    if cs != [] {
      var n := |cs| - 1;
      AddAllLoads(env, a, cs[..n], visits);
      NewConfigLoads(env, AddAll(env, a, cs[..n], visits), cs[n], if n < |visits| then visits[n] else []);
      assert forall c :: c in cs ==> c in cs[..n] || c == cs[n];
    }
  }

  lemma NewConfigLoads(env: M.Env, a: M.State, c: Config, visits: seq<M.Entity>)
    ensures a.loadedConfigs.Keys <= M.NewConfig(env, a, c, visits).loadedConfigs.Keys
    ensures LoadedForm(env, c).Some? ==> DigestOf(env.hash, LoadedForm(env, c).value) in M.NewConfig(env, a, c, visits).loadedConfigs
  {
    if c.IsTemplate() {
      var tpl := M.WithMetrics(env, c);
      T.ResolvedGrows(env, a.(cache := TC.Stored(env.hash, a.cache, tpl)), M.Known(a, tpl, visits));
    }
  }

  /** A removal takes out digests that it names, and digests listed under a template; the latter are what a match gives. */
  lemma EmptiedKeeps(env: M.Env, u: T.Universe, a: M.State, removed: seq<Config>, d: Digest)
    requires SD.Explained(env, u, a) && d in a.loadedConfigs && d !in Digests(env.hash, removed)
    requires !SD.Given(env, u, d)
    ensures d in Emptied(env, a, removed).loadedConfigs
  {
    var b := M.Removed(env, a, removed);
    M.RemovedTemplatesAre(env, b, removed);
    if d in M.FiledUnder(env, b, removed) {
      SD.FiledUnderFrom(env, b, removed, d);
      var c :| c in removed && c.IsTemplate() && d in T.Under(env.hash, b.templateToConfigs, DigestOf(env.hash, c));
      SD.ListedIsGiven(env, u, a, M.Entity(""), DigestOf(env.hash, c), d);
      assert false;
    }
  }

  /** Returned by its provider, or ready to be taken for one that is held: then loaded. */
  ghost predicate AllLoaded(env: M.Env, src: Sources, s: State) {
    && (forall p, c :: c in Latest(s, p) ==> src.may(p, c))
    && forall p, c :: src.may(p, c) && LoadedForm(env, c).Some?
                      && (c in Latest(s, p) || DigestOf(env.hash, c) in Digests(env.hash, KnownTo(s, p))) ==>
         LoadedDigest(env, c) in s.auto.loadedConfigs
  }

  /** The removals of a poll leave alone what another provider returned, and what its own returns and is taken for known. */
  lemma NotRemoved(env: M.Env, src: Sources, s: State, p: Provider, fetched: seq<Config>, q: Provider, c: Config)
    requires DigestsFrom(env, src, s) && SD.Explained(env, UniverseOf(env, src), s.auto) && HoldersApart(env, src)
    requires src.may(q, c) && LoadedForm(env, c).Some? && LoadedDigest(env, c) in s.auto.loadedConfigs
    requires q == p ==> DigestOf(env.hash, c) in Digests(env.hash, KnownTo(s, p)) && DigestOf(env.hash, c) in Digests(env.hash, fetched)
    ensures LoadedDigest(env, c) in Emptied(env, s.auto, Missing(env.hash, KnownTo(s, p), fetched)).loadedConfigs
  {
    var removed, d := Missing(env.hash, KnownTo(s, p), fetched), LoadedDigest(env, c);
    MissingDigests(env.hash, KnownTo(s, p), fetched);
    if d in Digests(env.hash, KnownTo(s, p)) {
      assert MayHoldDigest(env, src, p, d);
      if q == p {
        var x :| src.may(p, x) && DigestOf(env.hash, M.Kept(env, x)) == DigestOf(env.hash, c);
        assert TakenFor(env, src, p, x, c);
      }
    }
    EmptiedKeeps(env, UniverseOf(env, src), s.auto, removed, d);
  }

  lemma PollKept(env: M.Env, src: Sources, s: State, p: Provider, fetched: seq<Config>, visits: seq<seq<M.Entity>>)
    requires AllLoaded(env, src, s) && DigestsFrom(env, src, s) && SD.Explained(env, UniverseOf(env, src), s.auto)
    requires HoldersApart(env, src) && forall c :: c in fetched ==> src.may(p, c)
    ensures AllLoaded(env, src, Step(env, s, Poll(p, Ok(fetched), visits)))
  {
    var s' := Step(env, s, Poll(p, Ok(fetched), visits));
    forall q, c | src.may(q, c) && LoadedForm(env, c).Some?
                  && (c in Latest(s', q) || DigestOf(env.hash, c) in Digests(env.hash, KnownTo(s', q)))
      ensures LoadedDigest(env, c) in s'.auto.loadedConfigs
    {
      OneKept(env, src, s, p, fetched, visits, q, c);
    }
  }

  /** A new configuration, or one that is held in place of a new one, is loaded by the poll. */
  lemma NewlyLoaded(env: M.Env, src: Sources, p: Provider, base: M.State, known: seq<Config>, fetched: seq<Config>,
                    visits: seq<seq<M.Entity>>, c: Config)
    requires KnownAlike(env, src) && src.may(p, c) && LoadedForm(env, c).Some? && forall f :: f in fetched ==> src.may(p, f)
    requires !(DigestOf(env.hash, c) in Digests(env.hash, known) && DigestOf(env.hash, c) in Digests(env.hash, fetched))
    requires c in fetched || DigestOf(env.hash, c) in Digests(env.hash, StoredAfter(env.hash, Rewrite(env), known, fetched))
    ensures LoadedDigest(env, c) in AddAll(env, base, Missing(env.hash, fetched, known), visits).loadedConfigs
  {
    var b := NewOrHeld(env, known, fetched, c);
    AddAllLoads(env, base, Missing(env.hash, fetched, known), visits);
    assert b != c ==> TakenFor(env, src, p, b, c);
  }

  lemma OneKept(env: M.Env, src: Sources, s: State, p: Provider, fetched: seq<Config>, visits: seq<seq<M.Entity>>, q: Provider, c: Config)
    requires AllLoaded(env, src, s) && DigestsFrom(env, src, s) && SD.Explained(env, UniverseOf(env, src), s.auto)
    requires HoldersApart(env, src) && forall f :: f in fetched ==> src.may(p, f)
    requires src.may(q, c) && LoadedForm(env, c).Some?
    requires var s' := Step(env, s, Poll(p, Ok(fetched), visits));
             c in Latest(s', q) || DigestOf(env.hash, c) in Digests(env.hash, KnownTo(s', q))
    ensures LoadedDigest(env, c) in Step(env, s, Poll(p, Ok(fetched), visits)).auto.loadedConfigs
  {
    var known := KnownTo(s, p);
    var base := Emptied(env, s.auto, Missing(env.hash, known, fetched));
    if q != p || (DigestOf(env.hash, c) in Digests(env.hash, known) && DigestOf(env.hash, c) in Digests(env.hash, fetched)) {
      NotRemoved(env, src, s, p, fetched, q, c);
      AddAllLoads(env, base, Missing(env.hash, fetched, known), visits);
    } else {
      NewlyLoaded(env, src, p, base, known, fetched, visits, c);
    }
  }

  /** What a provider returns or its poller holds, and is not taken for known, is new or held in place of something new. */
  lemma NewOrHeld(env: M.Env, known: seq<Config>, fetched: seq<Config>, c: Config) returns (b: Config)
    requires !(DigestOf(env.hash, c) in Digests(env.hash, known) && DigestOf(env.hash, c) in Digests(env.hash, fetched))
    requires c in fetched || DigestOf(env.hash, c) in Digests(env.hash, StoredAfter(env.hash, Rewrite(env), known, fetched))
    ensures b in fetched && b in Missing(env.hash, fetched, known)
    ensures b == c || DigestOf(env.hash, M.Kept(env, b)) == DigestOf(env.hash, c)
  {
    if c in fetched {
      var i :| 0 <= i < |fetched| && fetched[i] == c;
      MissingOr(env.hash, fetched, known, c);
      b := c;
    } else {
      HeldIs(env, known, fetched, DigestOf(env.hash, c));
      b :| b in fetched && b in Missing(env.hash, fetched, known) && DigestOf(env.hash, M.Kept(env, b)) == DigestOf(env.hash, c);
    }
  }

  lemma ServiceKept(env: M.Env, src: Sources, s: State, op: Op)
    requires AllLoaded(env, src, s) && SD.Explained(env, UniverseOf(env, src), s.auto) && HoldersApart(env, src) && !op.Poll?
    ensures AllLoaded(env, src, Step(env, s, op))
  {
    var s' := Step(env, s, op);
    if op.AddService? {
      if op.svc.adIdentifiers.Ok? {
        T.ResolvedGrows(env, T.Arrived(s.auto, op.svc), M.MatchAll(M.TemplatesFor(s.auto.cache, T.Ids(op.svc)), op.svc));
      }
    } else {
      forall d | d in T.Under(env.hash, s.auto.serviceToConfigs, op.e)
        ensures SD.Given(env, UniverseOf(env, src), d)
      {
        SD.ListedIsGiven(env, UniverseOf(env, src), s.auto, op.e, d, d);
      }
    }
  }

  lemma {:induction false} RunKept(env: M.Env, src: Sources, ops: seq<Op>)
    requires RunOf(env, src, ops) && HoldersApart(env, src)
    ensures AllLoaded(env, src, Run(env, ops)) && DigestsFrom(env, src, Run(env, ops))
  {
    if ops != [] {
      var s, op := Run(env, ops[..|ops| - 1]), ops[|ops| - 1];
      RunKept(env, src, ops[..|ops| - 1]);
      RunReached(env, src, ops[..|ops| - 1]);
      SD.ReachedExplained(env, UniverseOf(env, src), s.auto);
      match op
      case Poll(p, Err, _) =>
      case Poll(p, Ok(fetched), visits) =>
        PollKept(env, src, s, p, fetched, visits);
        PollDigestsFrom(env, src, s, p, fetched, visits);
      case _ => ServiceKept(env, src, s, op);
    }
  }

  // ----- and when it is not -----

  lemma {:induction false} NoneKnown(a: M.State, tpl: Config, visits: seq<M.Entity>)
    requires a.entityToService == map[]
    ensures M.Known(a, tpl, visits) == []
  {
    if visits != [] {
      NoneKnown(a, tpl, visits[..|visits| - 1]);
    }
  }

  lemma OnlyLoaded(env: M.Env, c: Config, visits: seq<M.Entity>)
    ensures M.NewConfig(env, M.INITIAL, c, visits).loadedConfigs.Keys
         == if LoadedForm(env, c).Some? then {LoadedDigest(env, c)} else {}
  {
    NoneKnown(M.INITIAL, M.WithMetrics(env, c), visits);
  }

  /** A configuration that is taken for another one, which loads something else or nothing. */
  lemma TakenForOther(env: M.Env, src: Sources, p: Provider, x: Config, c: Config) returns (s: State)
    requires TakenFor(env, src, p, x, c) && LoadedForm(env, c).Some? && !LoadsLike(env, x, c)
    ensures Reached(env, src, s) && !ReturnedLoaded(env, s)
  {
    ReachedFirst(env, src);
    var s1, visits := FetchOne(env, src, INITIAL, p, x);
    OnlyLoaded(env, x, visits);
    s := SwapSame(env, src, s1, p, M.Kept(env, x), c);
    assert c in Latest(s, p) && LoadedDigest(env, c) !in s.auto.loadedConfigs.Keys;
  }

  /** A configuration that is taken for one of two held ones, while the other goes and takes along what it had loaded. */
  lemma DroppedWithOther(env: M.Env, src: Sources, p: Provider, c: Config, x: Config, y: Config) returns (s: State)
    requires TakenFor(env, src, p, x, c) && src.may(p, y) && LoadedForm(env, c).Some? && LoadedDigest(env, c) != DigestOf(env.hash, c)
    requires DigestOf(env.hash, M.Kept(env, y)) == LoadedDigest(env, c)
    ensures Reached(env, src, s) && !ReturnedLoaded(env, s)
  {
    var k, l := M.Kept(env, x), M.Kept(env, y);
    ReachedFirst(env, src);
    var s1, v := FetchPair(env, src, INITIAL, p, x, y);
    var none := Polls(env, src, s1, p, [c]);
    SecondGoes(env.hash, k, l, c);
    assert none == [];
    s := Step(env, s1, Poll(p, Ok([c]), []));
    EmptiedDigest(env, s1.auto, l);
    assert c in Latest(s, p) && LoadedDigest(env, c) !in s.auto.loadedConfigs;
  }

  lemma SecondGoes(hash: string -> Digest, k: Config, l: Config, c: Config)
    requires DigestOf(hash, k) == DigestOf(hash, c) != DigestOf(hash, l)
    ensures Missing(hash, [k, l], [c]) == [l] && Missing(hash, [c], [k, l]) == []
  {
    var both := [k, l];
    assert both[..1] == [k] && [k][..0] == [] && [c][..0] == [] && [c][0] == c && both[0] == k;
    assert Contains(hash, [c], k) && !Contains(hash, [c], l) && Contains(hash, both, c);
    assert Missing(hash, both[..1], [c]) == [];
  }

  lemma EmptiedDigest(env: M.Env, a: M.State, l: Config)
    ensures DigestOf(env.hash, l) !in Emptied(env, a, [l]).loadedConfigs
  {
    M.RemovedTemplatesOne(env, M.Removed(env, a, [l]), l);
    DroppedDigest(env, a, l);
  }

  lemma PollPair(env: M.Env, s: State, p: Provider, x: Config, y: Config, visits: seq<seq<M.Entity>>)
    requires KnownTo(s, p) == [] && |visits| == 2
    ensures DiffOf(env.hash, [], Ok([x, y])) == Diff([x, y], [])
    ensures Step(env, s, Poll(p, Ok([x, y]), visits)) ==
            State(M.NewConfig(env, M.NewConfig(env, s.auto, x, visits[0]), y, visits[1]),
                  s.stored[p := [M.Kept(env, x), M.Kept(env, y)]], s.latest[p := [x, y]])
  {
    PairMissing(env.hash, x, y);
    NothingRemoved(env, s.auto);
    AddPair(env, s.auto, x, y, visits);
    assert StoredAfter(env.hash, Rewrite(env), [], [x, y]) == [M.Kept(env, x), M.Kept(env, y)];
  }

  lemma PairMissing(hash: string -> Digest, x: Config, y: Config)
    ensures Missing(hash, [x, y], []) == [x, y] && Missing(hash, [], [x, y]) == []
  {
    var both := [x, y];
    assert both[..1] == [x] && [x][..0] == [];
    assert Missing(hash, both[..1], []) == [x];
  }

  lemma AddPair(env: M.Env, a: M.State, x: Config, y: Config, visits: seq<seq<M.Entity>>)
    requires |visits| == 2
    ensures AddAll(env, a, [x, y], visits) == M.NewConfig(env, M.NewConfig(env, a, x, visits[0]), y, visits[1])
  {
    var both := [x, y];
    assert both[..1] == [x] && [x][..0] == [];
    assert AddAll(env, a, both[..1][..0], visits) == a;
  }

  /** Two configurations fetched at once, by a provider that had none. */
  lemma FetchPair(env: M.Env, src: Sources, s: State, p: Provider, x: Config, y: Config) returns (s': State, visits: seq<seq<M.Entity>>)
    requires Reached(env, src, s) && KnownTo(s, p) == [] && src.may(p, x) && src.may(p, y)
    ensures Reached(env, src, s') && |visits| == 2 && (x.IsTemplate() ==> M.Visits(s.auto, x.adIdentifiers, visits[0]))
    ensures s' == State(M.NewConfig(env, M.NewConfig(env, s.auto, x, visits[0]), y, visits[1]),
                        s.stored[p := [M.Kept(env, x), M.Kept(env, y)]], s.latest[p := [x, y]])
  {
    visits := Polls(env, src, s, p, [x, y]);
    PairMissing(env.hash, x, y);
    NothingRemoved(env, s.auto);
    PollPair(env, s, p, x, y, visits);
    s' := Step(env, s, Poll(p, Ok([x, y]), visits));
    assert AddAll(env, s.auto, [x, y][..0], visits) == s.auto;
  }

  /** Another provider holds the digest under which it is loaded, and drops it. */
  lemma OtherDrops(env: M.Env, src: Sources, p: Provider, c: Config, q: Provider, y: Config) returns (s: State)
    requires p != q && src.may(p, c) && src.may(q, y) && LoadedForm(env, c).Some?
    requires DigestOf(env.hash, M.Kept(env, y)) == LoadedDigest(env, c)
    ensures Reached(env, src, s) && !ReturnedLoaded(env, s)
  {
    var v: seq<M.Entity> := [];
    ReachedFirst(env, src);
    var s1, s2;
    s1, v := FetchOne(env, src, INITIAL, q, y);
    s2, v := FetchOne(env, src, s1, p, c);
    s := DropOne(env, src, s2, q, M.Kept(env, y));
    DroppedDigest(env, s2.auto, M.Kept(env, y));
    assert c in Latest(s, p) && LoadedDigest(env, c) !in s.auto.loadedConfigs;
  }

  lemma DroppedDigest(env: M.Env, a: M.State, c: Config)
    ensures var s := M.RemovedTemplate(env, M.Removed(env, a, [c]), c);
            && DigestOf(env.hash, c) !in s.loadedConfigs && DigestOf(env.hash, c) !in s.active
            && (c.IsTemplate() && a.cache.digestToADId.Keys == a.cache.digestToTemplate.Keys ==>
                  DigestOf(env.hash, c) !in s.cache.digestToTemplate)
  {
    M.DigestsOne(env.hash, c);
  }

  /** A digest that is also listed under a service goes with the service. */
  lemma ServiceTakes(env: M.Env, src: Sources, s: State, e: M.Entity, p: Provider, c: Config) returns (s': State)
    requires Reached(env, src, s) && c in Latest(s, p) && LoadedForm(env, c).Some?
    requires LoadedDigest(env, c) in T.Under(env.hash, s.auto.serviceToConfigs, e)
    ensures Reached(env, src, s') && !ReturnedLoaded(env, s')
  {
    ReachedNext(env, src, s, RemoveService(e));
    s' := Step(env, s, RemoveService(e));
    assert c in Latest(s', p) && LoadedDigest(env, c) !in s'.auto.loadedConfigs;
  }

  /** A template and a configuration that is not one are fetched, by two providers or by one. */
  lemma FetchWith(env: M.Env, src: Sources, s: State, q: Provider, raw: Config, p: Provider, c: Config) returns (s': State, visits: seq<M.Entity>)
    requires Reached(env, src, s) && KnownTo(s, q) == [] == KnownTo(s, p)
    requires src.may(q, raw) && raw.IsTemplate() && src.may(p, c) && LoadedForm(env, c).Some?
    ensures Reached(env, src, s') && M.Visits(s.auto, raw.adIdentifiers, visits) && c in Latest(s', p)
    ensures s'.auto.cache == TC.Stored(env.hash, s.auto.cache, M.WithMetrics(env, raw))
    ensures s'.auto.serviceToConfigs == M.NewConfig(env, s.auto, raw, visits).serviceToConfigs
  {
    if q != p {
      var s1, v;
      s1, visits := FetchOne(env, src, s, q, raw);
      s', v := FetchOne(env, src, s1, p, c);
    } else {
      var all;
      s', all := FetchPair(env, src, s, p, raw, c);
      visits := all[0];
    }
    CacheOfNew(env, s.auto, raw, visits);
  }

  /** The entity of a service offers an identifier and comes again as that service. */
  lemma ServiceComes(env: M.Env, src: Sources, svc: M.Service, id: AdId) returns (s: State)
    requires src.service(svc) && SD.Offers(UniverseOf(env, src), svc.entity, id)
    ensures Reached(env, src, s) && s.stored == map[]
    ensures svc.entity in T.ServicesAt(s.auto, id) && svc.entity in s.auto.entityToService && s.auto.entityToService[svc.entity] == svc
  {
    var first :| src.service(first) && first.entity == svc.entity && id in T.Ids(first);
    ReachedFirst(env, src);
    ReachedNext(env, src, INITIAL, AddService(first));
    var s1 := Step(env, INITIAL, AddService(first));
    ReachedNext(env, src, s1, AddService(svc));
    s := Step(env, s1, AddService(svc));
    SD.ComesTwice(env, INITIAL.auto, first, svc, id);
  }

  lemma DirectlyFrom(env: M.Env, src: Sources, m: M.Match) returns (q: Provider, raw: Config, id: AdId)
    requires SD.Direct(env, UniverseOf(env, src), m)
    ensures src.may(q, raw) && raw.IsTemplate() && m.tpl == M.WithMetrics(env, raw)
    ensures id in m.tpl.adIdentifiers && SD.Offers(UniverseOf(env, src), m.svc.entity, id)
  {
    var u := UniverseOf(env, src);
    raw :| u.config(raw) && raw.IsTemplate() && m.tpl == M.WithMetrics(env, raw);
    q :| src.may(q, raw);
    id :| id in m.tpl.adIdentifiers && SD.Offers(u, m.svc.entity, id);
  }

  lemma GivenDirectly(env: M.Env, src: Sources, m: M.Match, p: Provider, c: Config) returns (s: State)
    requires src.may(p, c) && LoadedForm(env, c).Some? && src.service(m.svc)
    requires SD.Direct(env, UniverseOf(env, src), m) && T.Resolves(env, m, LoadedDigest(env, c))
    ensures Reached(env, src, s) && !ReturnedLoaded(env, s)
  {
    var q, raw, id := DirectlyFrom(env, src, m);
    var s1 := ServiceComes(env, src, m.svc, id);
    var s2, visits := FetchWith(env, src, s1, q, raw, p, c);
    SD.TriedOn(env, s1.auto, raw, visits, id, m.svc.entity, LoadedDigest(env, c));
    s := ServiceTakes(env, src, s2, m.svc.entity, p, c);
  }

  /** A service that names an identifier takes what stands at its entry, and takes it away again. */
  lemma ThenServed(env: M.Env, src: Sources, s: State, m: M.Match, id: AdId, e: Digest, p: Provider, c: Config) returns (s': State)
    requires Reached(env, src, s) && src.service(m.svc) && id in T.Ids(m.svc) && e in TC.ListOf(s.auto.cache.adIDToDigests, id)
    requires m.tpl == (if e in s.auto.cache.digestToTemplate then s.auto.cache.digestToTemplate[e] else EMPTY)
    requires c in Latest(s, p) && LoadedForm(env, c).Some? && T.Resolves(env, m, LoadedDigest(env, c))
    ensures Reached(env, src, s') && !ReturnedLoaded(env, s')
  {
    ReachedNext(env, src, s, AddService(m.svc));
    T.ServiceFinds(env, s.auto, m.svc, id, e, LoadedDigest(env, c));
    var s1 := Step(env, s, AddService(m.svc));
    s' := ServiceTakes(env, src, s1, m.svc.entity, p, c);
  }

  lemma GivenStale(env: M.Env, src: Sources, m: M.Match, id: AdId, e: Digest, p: Provider, c: Config) returns (s: State)
    requires src.may(p, c) && LoadedForm(env, c).Some? && src.service(m.svc) && id in T.Ids(m.svc)
    requires T.StaleAt(env, UniverseOf(env, src), id, e) && T.Resolves(env, m, LoadedDigest(env, c))
    requires m.tpl == EMPTY || (T.Cacheable(env, UniverseOf(env, src), m.tpl) && DigestOf(env.hash, m.tpl) == e)
    ensures Reached(env, src, s) && !ReturnedLoaded(env, s)
  {
    var u := UniverseOf(env, src);
    var s1 := StalePolls(env, src, id, e);
    AutoIndexed(env, src, s1);
    var s2, v;
    if m.tpl == EMPTY {
      s2, v := FetchOne(env, src, s1, p, c);
    } else {
      var raw :| u.config(raw) && raw.IsTemplate() && m.tpl == M.WithMetrics(env, raw);
      var q :| src.may(q, raw);
      s2, v := FetchWith(env, src, s1, q, raw, p, c);
      SD.StaleStays(env.hash, s1.auto.cache, m.tpl, id, e);
    }
    s := ThenServed(env, src, s2, m, id, e, p, c);
  }

  lemma AutoIndexed(env: M.Env, src: Sources, s: State)
    requires Reached(env, src, s)
    ensures T.Indexed(env, UniverseOf(env, src), s.auto.cache)
  {
    var ops :| RunOf(env, src, ops) && Run(env, ops) == s;
    RunReached(env, src, ops);
    T.ReachedIndexed(env, UniverseOf(env, src), s.auto);
  }

  lemma TakenByService(env: M.Env, src: Sources, m: M.Match, p: Provider, c: Config) returns (s: State)
    requires src.may(p, c) && LoadedForm(env, c).Some?
    requires SD.Gives(env, UniverseOf(env, src), m, LoadedDigest(env, c))
    ensures Reached(env, src, s) && !ReturnedLoaded(env, s)
  {
    var u := UniverseOf(env, src);
    if SD.Direct(env, u, m) {
      s := GivenDirectly(env, src, m, p, c);
    } else {
      var id, e := SD.NotDirect(env, u, m);
      s := GivenStale(env, src, m, id, e, p, c);
    }
  }

  lemma NotReturnedLoaded(env: M.Env, src: Sources) returns (s: State)
    requires !HoldersApart(env, src)
    ensures Reached(env, src, s) && !ReturnedLoaded(env, s)
  {
    if !KnownAlike(env, src) {
      var p, x, c :| TakenFor(env, src, p, x, c) && LoadedForm(env, c).Some? && !LoadsLike(env, x, c);
      s := TakenForOther(env, src, p, x, c);
    } else if !NotDropped(env, src) {
      var p, x, c :| TakenFor(env, src, p, x, c) && LoadedForm(env, c).Some? && MayHoldDigest(env, src, p, LoadedDigest(env, c))
                     && LoadedDigest(env, c) != DigestOf(env.hash, c);
      var y :| src.may(p, y) && DigestOf(env.hash, M.Kept(env, y)) == LoadedDigest(env, c);
      s := DroppedWithOther(env, src, p, c, x, y);
    } else if !OneHolder(env, src) {
      var p, q, c :| p != q && src.may(p, c) && LoadedForm(env, c).Some? && MayHoldDigest(env, src, q, LoadedDigest(env, c));
      var y :| src.may(q, y) && DigestOf(env.hash, M.Kept(env, y)) == LoadedDigest(env, c);
      s := OtherDrops(env, src, p, c, q, y);
    } else {
      var p, c :| src.may(p, c) && LoadedForm(env, c).Some? && SD.Given(env, UniverseOf(env, src), LoadedDigest(env, c));
      var m :| SD.Gives(env, UniverseOf(env, src), m, LoadedDigest(env, c));
      s := TakenByService(env, src, m, p, c);
    }
  }

  /** In every run every decryptable configuration that a provider returned last is loaded, exactly under these conditions. */
  lemma ReturnedLoadedIff(env: M.Env, src: Sources)
    ensures (forall s :: Reached(env, src, s) ==> ReturnedLoaded(env, s)) <==> HoldersApart(env, src)
  {
    if HoldersApart(env, src) {
      forall s | Reached(env, src, s)
        ensures ReturnedLoaded(env, s)
      {
        var ops :| RunOf(env, src, ops) && Run(env, ops) == s;
        RunKept(env, src, ops);
      }
    } else {
      var s := NotReturnedLoaded(env, src);
    }
  }

  // ----- what is held is cached -----

  /** Every template that a poller holds is itself cached, with its metrics. */
  ghost predicate CachedAll(env: M.Env, s: State) {
    forall p, c :: c in KnownTo(s, p) && c.IsTemplate() ==>
      var d, cached := DigestOf(env.hash, c), s.auto.cache.digestToTemplate;
      d in cached && cached[d] == M.WithMetrics(env, c)
  }

  /** No two providers return templates under one digest, and one provider returns one template under it. */
  ghost predicate OneTemplateEach(env: M.Env, src: Sources) {
    forall p, q, a, b :: src.may(p, a) && src.may(q, b) && a.IsTemplate() && b.IsTemplate() && DigestOf(env.hash, a) == DigestOf(env.hash, b) ==>
      p == q && M.WithMetrics(env, a) == M.WithMetrics(env, b)
  }

  /** No provider returns a template under the digest that another of its configurations is held under. */
  ghost predicate KeptApart(env: M.Env, src: Sources) {
    forall p, c, f :: src.may(p, c) && src.may(p, f) && c.IsTemplate() && !f.IsTemplate() ==>
      DigestOf(env.hash, c) != DigestOf(env.hash, M.Kept(env, f))
  }

  /** And JMX metrics change the digest of no template. */
  ghost predicate TemplatesApart(env: M.Env, src: Sources) {
    AllCachedSame(env, src) && OneTemplateEach(env, src) && KeptApart(env, src)
  }

  /** Whatever is held under the digest of a template of the same provider is cached. */
  ghost predicate DigestsCached(env: M.Env, src: Sources, s: State) {
    && s.auto.cache.digestToADId.Keys == s.auto.cache.digestToTemplate.Keys
    && forall p, c {:trigger src.may(p, c)} :: src.may(p, c) && c.IsTemplate() && DigestOf(env.hash, c) in Digests(env.hash, KnownTo(s, p)) ==>
         DigestOf(env.hash, c) in s.auto.cache.digestToTemplate
  }

  lemma RemovedTemplateOf(env: M.Env, src: Sources, s: State, p: Provider, fetched: seq<Config>, d: Digest)
    requires TemplatesAllowed(src, s) && d in M.TemplateDigests(env.hash, Missing(env.hash, KnownTo(s, p), fetched))
    ensures d !in Digests(env.hash, fetched) && exists b :: src.may(p, b) && b.IsTemplate() && DigestOf(env.hash, b) == d
  {
    var removed := Missing(env.hash, KnownTo(s, p), fetched);
    MissingDigests(env.hash, KnownTo(s, p), fetched);
    var i :| 0 <= i < |removed| && removed[i].IsTemplate() && DigestOf(env.hash, removed[i]) == d;
    assert removed[i] in removed && d in Digests(env.hash, removed);
    MissingIsIn(env.hash, KnownTo(s, p), fetched, removed[i]);
    assert src.may(p, removed[i]);
  }

  lemma StillCached(env: M.Env, src: Sources, s: State, p: Provider, fetched: seq<Config>, q: Provider, c: Config)
    requires DigestsCached(env, src, s) && TemplatesAllowed(src, s) && TemplatesApart(env, src)
    requires src.may(q, c) && c.IsTemplate() && DigestOf(env.hash, c) in Digests(env.hash, KnownTo(s, q))
    requires q == p ==> DigestOf(env.hash, c) in Digests(env.hash, fetched)
    ensures DigestOf(env.hash, c) in s.auto.cache.digestToTemplate.Keys - M.TemplateDigests(env.hash, Missing(env.hash, KnownTo(s, p), fetched))
  {
    var d := DigestOf(env.hash, c);
    if d in M.TemplateDigests(env.hash, Missing(env.hash, KnownTo(s, p), fetched)) {
      RemovedTemplateOf(env, src, s, p, fetched, d);
      assert false;
    }
  }

  lemma PollCachedAll(env: M.Env, src: Sources, s: State, p: Provider, fetched: seq<Config>, visits: seq<seq<M.Entity>>)
    requires DigestsCached(env, src, s) && TemplatesAllowed(src, s) && TemplatesApart(env, src)
    requires forall c :: c in fetched ==> src.may(p, c)
    ensures DigestsCached(env, src, Step(env, s, Poll(p, Ok(fetched), visits)))
  {
    var known, s' := KnownTo(s, p), Step(env, s, Poll(p, Ok(fetched), visits));
    var diff := DiffOf(env.hash, known, Ok(fetched));
    var removed := M.Removed(env, s.auto, diff.removed);
    RemovedTemplatesCache(env, removed, diff.removed);
    AddAllCache(env, M.RemovedTemplates(env, removed, diff.removed), diff.added, visits);
    forall q, c | src.may(q, c) && c.IsTemplate() && DigestOf(env.hash, c) in Digests(env.hash, KnownTo(s', q))
      ensures DigestOf(env.hash, c) in s'.auto.cache.digestToTemplate
    {
      var d := DigestOf(env.hash, c);
      if q == p {
        HeldIs(env, known, fetched, d);
      }
      if q != p || (d in Digests(env.hash, known) && d in Digests(env.hash, fetched)) {
        StillCached(env, src, s, p, fetched, q, c);
      } else {
        var b :| b in fetched && b in diff.added && DigestOf(env.hash, M.Kept(env, b)) == d;
        assert b.IsTemplate() && SameWhenCached(env, b);
      }
    }
  }

  lemma {:induction false} RunCachedAll(env: M.Env, src: Sources, ops: seq<Op>)
    requires RunOf(env, src, ops) && TemplatesApart(env, src)
    ensures DigestsCached(env, src, Run(env, ops)) && TemplatesAllowed(src, Run(env, ops))
  {
    if ops != [] {
      var s, op := Run(env, ops[..|ops| - 1]), ops[|ops| - 1];
      RunCachedAll(env, src, ops[..|ops| - 1]);
      match op
      case Poll(p, Err, _) =>
      case Poll(p, Ok(fetched), visits) =>
        PollAllowed(env, src, s, p, fetched, visits);
        PollCachedAll(env, src, s, p, fetched, visits);
      case _ => ServicesSameCache(env, s, op);
    }
  }

  lemma HeldNotCached(env: M.Env, src: Sources) returns (s: State)
    requires !TemplatesApart(env, src)
    ensures Reached(env, src, s) && !CachedAll(env, s)
  {
    if !AllCachedSame(env, src) {
      var p, c :| src.may(p, c) && !SameWhenCached(env, c);
      var visits;
      ReachedFirst(env, src);
      s, visits := FetchOne(env, src, INITIAL, p, c);
      NewConfigCache(env, INITIAL.auto, c, visits);
      assert c in KnownTo(s, p);
    } else if !OneTemplateEach(env, src) {
      var p, q, a, b :| src.may(p, a) && src.may(q, b) && a.IsTemplate() && b.IsTemplate() && DigestOf(env.hash, a) == DigestOf(env.hash, b)
                        && !(p == q && M.WithMetrics(env, a) == M.WithMetrics(env, b));
      if p != q {
        s := OtherTemplateGoes(env, src, p, a, q, b);
      } else {
        s := FirstStaysCached(env, src, p, a, b);
      }
    } else {
      var p, c, f :| src.may(p, c) && src.may(p, f) && c.IsTemplate() && !f.IsTemplate()
                     && DigestOf(env.hash, c) == DigestOf(env.hash, M.Kept(env, f));
      s := TakenForKnown(env, src, p, c, f);
    }
  }

  /** A template that comes in place of another one of the same digest is not seen as new: the cache keeps the first. */
  lemma FirstStaysCached(env: M.Env, src: Sources, p: Provider, a: Config, b: Config) returns (s: State)
    requires src.may(p, a) && src.may(p, b) && a.IsTemplate() && b.IsTemplate() && SameWhenCached(env, a)
    requires DigestOf(env.hash, a) == DigestOf(env.hash, b) && M.WithMetrics(env, a) != M.WithMetrics(env, b)
    ensures Reached(env, src, s) && !CachedAll(env, s)
  {
    ReachedFirst(env, src);
    var s1, visits := FetchOne(env, src, INITIAL, p, a);
    CacheOfNew(env, INITIAL.auto, a, visits);
    s := SwapSame(env, src, s1, p, a, b);
    assert b in KnownTo(s, p);
  }

  /** Two providers with one template: when one drops it, the other still holds it and it is not cached. */
  lemma OtherTemplateGoes(env: M.Env, src: Sources, p: Provider, a: Config, q: Provider, b: Config) returns (s: State)
    requires p != q && src.may(p, a) && src.may(q, b) && a.IsTemplate() && b.IsTemplate()
    requires DigestOf(env.hash, a) == DigestOf(env.hash, b)
    ensures Reached(env, src, s) && !CachedAll(env, s)
  {
    var s1, s2, v;
    ReachedFirst(env, src);
    s1, v := FetchOne(env, src, INITIAL, q, b);
    NewConfigCache(env, INITIAL.auto, b, v);
    s2, v := FetchOne(env, src, s1, p, a);
    NewConfigCache(env, s1.auto, a, v);
    s := DropOne(env, src, s2, q, b);
    assert a in KnownTo(s, p);
  }

  lemma NotCached(env: M.Env, s: State, p: Provider, c: Config)
    requires c in KnownTo(s, p) && c.IsTemplate() && DigestOf(env.hash, c) !in s.auto.cache.digestToTemplate
    ensures !CachedAll(env, s)
  {}

  /** A template that comes in place of a configuration held under its digest is not seen as new. */
  lemma TakenForKnown(env: M.Env, src: Sources, p: Provider, c: Config, f: Config) returns (s: State)
    requires src.may(p, c) && src.may(p, f) && c.IsTemplate() && !f.IsTemplate()
    requires DigestOf(env.hash, c) == DigestOf(env.hash, M.Kept(env, f))
    ensures Reached(env, src, s) && !CachedAll(env, s)
  {
    ReachedFirst(env, src);
    var s1, visits := FetchOne(env, src, INITIAL, p, f);
    NewConfigCache(env, INITIAL.auto, f, visits);
    s := SwapSame(env, src, s1, p, M.Kept(env, f), c);
    NotCached(env, s, p, c);
  }

  /** In every run every template that a poller holds is cached, exactly under these conditions. */
  lemma CachedAllIff(env: M.Env, src: Sources)
    ensures (forall s :: Reached(env, src, s) ==> CachedAll(env, s)) <==> TemplatesApart(env, src)
  {
    if TemplatesApart(env, src) {
      forall s | Reached(env, src, s)
        ensures CachedAll(env, s)
      {
        var ops :| RunOf(env, src, ops) && Run(env, ops) == s;
        RunCachedAll(env, src, ops);
        AutoIndexed(env, src, s);
        CachedAsHeld(env, src, s);
      }
    } else {
      var s := HeldNotCached(env, src);
    }
  }

  lemma CachedAsHeld(env: M.Env, src: Sources, s: State)
    requires DigestsCached(env, src, s) && TemplatesAllowed(src, s) && TemplatesApart(env, src)
    requires T.Indexed(env, UniverseOf(env, src), s.auto.cache)
    ensures CachedAll(env, s)
  {
    var cached := s.auto.cache.digestToTemplate;
    forall p, c | c in KnownTo(s, p) && c.IsTemplate()
      ensures DigestOf(env.hash, c) in cached && cached[DigestOf(env.hash, c)] == M.WithMetrics(env, c)
    {
      var i :| 0 <= i < |KnownTo(s, p)| && KnownTo(s, p)[i] == c;
      assert src.may(p, c);
      var raw :| UniverseOf(env, src).config(raw) && raw.IsTemplate() && cached[DigestOf(env.hash, c)] == M.WithMetrics(env, raw);
      var q :| src.may(q, raw);
      assert SameWhenCached(env, raw) && DigestOf(env.hash, raw) == DigestOf(env.hash, c);
    }
  }
}
