/** Concrete runs in which removed configurations stay loaded or cached, and diffs do not replay. */
module ProviderExamples {
  import opened Integration
  import opened Wrappers
  import opened ConfigPoller
  import opened ProviderRuns
  import C = ProviderConverse
  import D = Decryption
  import M = AutoConfigRuns
  import SD = SharedDigests
  import T = TemplateRuns
  import TC = TemplateCache

  const SECRET := "ENC[k]"
  const UNREADABLE := "ENC[bad]"

  /**
   No two digest inputs collide, one secret is known and one is not, JMX checks collect one metric, and templates resolve to
   themselves, but for the entity and for ignoreAutodiscoveryTags, which configresolver.Resolve does not copy.
   */
  function ExampleEnv(): M.Env {
    M.Env(s => Digest(s),
          (tpl: Config, svc: M.Service) => Ok(tpl.(entity := svc.entity.name, ignoreAutodiscoveryTags := false)),
          (data, name) => if data == UNREADABLE then Err else Ok(if data == SECRET then "v" else data),
          (c: Config) => if c.name == "jmx" then c.initConfig + "metric" else c.initConfig)
  }

  lemma InputLength(c: Config)
    requires |c.instances| <= 1 && |c.adIdentifiers| <= 1
    ensures |DigestInput(c)| ==
            |c.name| + (if c.instances == [] then 0 else |c.instances[0]|) + |c.initConfig| +
            (if c.adIdentifiers == [] then 0 else |c.adIdentifiers[0].name|) + |c.nodeName| + |c.logsConfig| + |c.entity| +
            if c.ignoreAutodiscoveryTags then 4 else 5
  {
    if c.instances != [] {
      ConcatTwo(c.instances[0], "");
      assert c.instances == [c.instances[0]];
    }
    if c.adIdentifiers != [] {
      ConcatTwo(c.adIdentifiers[0].name, "");
      assert Names(c.adIdentifiers) == [c.adIdentifiers[0].name];
    } else {
      assert Names(c.adIdentifiers) == [];
    }
  }

  /** A secret in init_config: the configuration stays loaded and scheduled after the provider dropped it. */
  lemma InitSecretStaysLoaded()
    ensures var env, p, c := ExampleEnv(), Provider("file"), EMPTY.(name := "redis", initConfig := SECRET);
            var s := Run(env, FetchedOnce([], p, c, []));
            && LoadedForm(env, c) == Some(c.(initConfig := "v")) && s.stored == map[p := []]
            && DigestOf(env.hash, c.(initConfig := "v")) in s.auto.loadedConfigs
            && DigestOf(env.hash, c.(initConfig := "v")) in s.auto.active
  {
    var env, p, c := ExampleEnv(), Provider("file"), EMPTY.(name := "redis", initConfig := SECRET);
    assert D.Decrypted(env.secrets, c) == Ok(c.(initConfig := "v"));
    InputLength(c);
    InputLength(c.(initConfig := "v"));
    assert M.Kept(env, c) == c;
    assert !SameWhenLoaded(env, c);
    FetchedOnceIs(env, [], p, c, []);
    M.DigestsOne(env.hash, c);
  }

  lemma SecretInstance(env: M.Env, c: Config)
    requires env == ExampleEnv() && c == EMPTY.(name := "redis", instances := [SECRET])
    ensures M.Kept(env, c) == c.(instances := ["v"]) && D.Decrypted(env.secrets, M.WithMetrics(env, c)) == Ok(M.Kept(env, c))
    ensures DigestOf(env.hash, c) != DigestOf(env.hash, M.Kept(env, c))
  {
    assert D.Replaced(env.secrets, c.name, [SECRET]) == ["v"] by {
      assert [SECRET][1..] == [];
    }
    assert M.WithMetrics(env, c) == c;
    InputLength(c);
    InputLength(c.(instances := ["v"]));
  }

  lemma ReportedAgain(env: M.Env, p: Provider, c: Config)
    requires !c.IsTemplate() && D.Decrypted(env.secrets, M.WithMetrics(env, c)) == Ok(M.Kept(env, c))
    requires DigestOf(env.hash, c) != DigestOf(env.hash, M.Kept(env, c))
    ensures Run(env, FetchedOnce([], p, c, [])).auto.plain == {}
    ensures DiffOf(env.hash, StoredAfter(env.hash, Rewrite(env), [], [c]), Ok([c])) == Diff([c], [M.Kept(env, c)])
    ensures Replayed(env.hash, Rewrite(env), [Ok([c]), Ok([])]) == {DigestOf(env.hash, c)}
  {
    FetchedOnceIs(env, [], p, c, []);
    M.DigestsOne(env.hash, M.Kept(env, c));
    UnchangedButReported(env.hash, Rewrite(env), c);
    ReplayedOnce(env.hash, Rewrite(env), c);
  }

  /** A secret in an instance: unloaded when dropped, but reported as removed and new while it stays. */
  lemma InstanceSecretIsReportedAgain()
    ensures var env, p, c := ExampleEnv(), Provider("file"), EMPTY.(name := "redis", instances := [SECRET]);
            var known := StoredAfter(env.hash, Rewrite(env), [], [c]);
            && Run(env, FetchedOnce([], p, c, [])).auto.plain == {}
            && DiffOf(env.hash, known, Ok([c])) == Diff([c], [M.Kept(env, c)])
            && Replayed(env.hash, Rewrite(env), [Ok([c]), Ok([])]) == {DigestOf(env.hash, c)}
  {
    var env, p, c := ExampleEnv(), Provider("file"), EMPTY.(name := "redis", instances := [SECRET]);
    SecretInstance(env, c);
    ReportedAgain(env, p, c);
  }

  lemma MetricsTemplate(env: M.Env, c: Config, svc: M.Service)
    requires env == ExampleEnv() && svc == M.Service(M.Entity("e"), Ok([AdId("id")]), "")
    requires c == EMPTY.(name := "jmx", adIdentifiers := [AdId("id")])
    ensures M.WithMetrics(env, c) == c.(initConfig := "metric")
    ensures M.ResolvedConfig(env, M.WithMetrics(env, c), svc) == Ok(c.(initConfig := "metric", entity := "e"))
    ensures DigestOf(env.hash, c) != DigestOf(env.hash, c.(initConfig := "metric"))
    ensures DigestOf(env.hash, c) != DigestOf(env.hash, c.(initConfig := "metric", entity := "e"))
  {
    assert "" + "metric" == "metric";
    var r := c.(initConfig := "metric", entity := "e");
    assert D.Decrypted(env.secrets, r) == Ok(r);
    InputLength(c);
    InputLength(c.(initConfig := "metric"));
    InputLength(r);
  }

  /** A JMX template: what it resolved to stays loaded, and the template cached, after the provider dropped it. */
  lemma MetricsTemplateStaysLoaded()
    ensures var env, p := ExampleEnv(), Provider("file");
            var c, svc := EMPTY.(name := "jmx", adIdentifiers := [AdId("id")]), M.Service(M.Entity("e"), Ok([AdId("id")]), "");
            var s := Run(env, FetchedOnce([AddService(svc)], p, c, [svc.entity]));
            var withMetrics := c.(initConfig := "metric");
            && s.stored == map[p := []]
            && DigestOf(env.hash, withMetrics) in s.auto.cache.digestToTemplate
            && DigestOf(env.hash, withMetrics.(entity := "e")) in s.auto.loadedConfigs
  {
    var env, p := ExampleEnv(), Provider("file");
    var c, svc := EMPTY.(name := "jmx", adIdentifiers := [AdId("id")]), M.Service(M.Entity("e"), Ok([AdId("id")]), "");
    MetricsTemplate(env, c, svc);
    StaysLoaded(env, p, c, svc, c.(initConfig := "metric", entity := "e"));
  }

  lemma StaysLoaded(env: M.Env, p: Provider, c: Config, svc: M.Service, r: Config)
    requires c.IsTemplate() && svc.adIdentifiers.Ok? && M.ResolvedConfig(env, M.WithMetrics(env, c), svc) == Ok(r)
    requires DigestOf(env.hash, c) != DigestOf(env.hash, M.WithMetrics(env, c)) && DigestOf(env.hash, c) != DigestOf(env.hash, r)
    ensures var s := Run(env, FetchedOnce([AddService(svc)], p, c, [svc.entity]));
            && s.stored == map[p := []]
            && DigestOf(env.hash, M.WithMetrics(env, c)) in s.auto.cache.digestToTemplate
            && DigestOf(env.hash, r) in s.auto.loadedConfigs
  {
    var ops := [AddService(svc)];
    AfterService(env, svc);
    OneResolved(env, Run(env, ops).auto, c, svc, r);
    TemplateUnloadedIff(env, ops, p, c, [svc.entity]);
    FetchedOnceIs(env, ops, p, c, [svc.entity]);
  }

  lemma AfterService(env: M.Env, svc: M.Service)
    requires svc.adIdentifiers.Ok?
    ensures var s := Run(env, [AddService(svc)]);
            && s.stored == map[] && s.auto.entityToService == map[svc.entity := svc] && s.auto.cache == M.INITIAL.cache
            && s.auto.templateToConfigs == map[] && s.auto.loadedConfigs == map[]
  {
    var ops := [AddService(svc)];
    assert ops[..0] == [] && ops[0] == AddService(svc);
    NoTemplates(M.INITIAL.cache, svc.adIdentifiers.value);
  }

  lemma {:induction false} NoTemplates(cache: TC.State, ids: seq<AdId>)
    requires cache == TC.INITIAL
    ensures M.TemplatesFor(cache, ids) == []
  {
    if ids != [] {
      NoTemplates(cache, ids[..|ids| - 1]);
    }
  }

  lemma OneMatch(env: M.Env, s: M.State, m: M.Match, r: Config)
    requires M.ResolvedConfig(env, m.tpl, m.svc) == Ok(r) && s.templateToConfigs == map[] && s.loadedConfigs == map[]
    ensures M.Resolved(env, s, [m]).templateToConfigs == map[DigestOf(env.hash, m.tpl) := [r]]
    ensures M.Resolved(env, s, [m]).loadedConfigs == map[DigestOf(env.hash, r) := r]
  {
    assert [m][..0] == [] && M.Resolved(env, s, [m][..0]) == s;
    assert [] + [r] == [r];
  }

  lemma OneKnown(s: M.State, tpl: Config, svc: M.Service)
    requires s.entityToService == map[svc.entity := svc]
    ensures M.Known(s, tpl, [svc.entity]) == [M.Match(tpl, svc)]
  {
    assert [svc.entity][..0] == [] && M.Known(s, tpl, [svc.entity][..0]) == [];
  }

  lemma OneResolved(env: M.Env, a: M.State, c: Config, svc: M.Service, r: Config)
    requires c.IsTemplate() && M.ResolvedConfig(env, M.WithMetrics(env, c), svc) == Ok(r)
    requires a.entityToService == map[svc.entity := svc] && a.templateToConfigs == map[] && a.loadedConfigs == map[]
    ensures var b, d := M.NewConfig(env, a, c, [svc.entity]), DigestOf(env.hash, M.WithMetrics(env, c));
            && b.templateToConfigs == map[d := [r]] && b.loadedConfigs == map[DigestOf(env.hash, r) := r]
            && Digests(env.hash, [r]) == {DigestOf(env.hash, r)}
  {
    var tpl := M.WithMetrics(env, c);
    OneKnown(a, tpl, svc);
    OneMatch(env, a.(cache := TC.Stored(env.hash, a.cache, tpl)), M.Match(tpl, svc), r);
    M.DigestsOne(env.hash, r);
  }

  // ----- taken for what is held -----

  lemma TwoOps(env: M.Env, ops: seq<Op>)
    requires |ops| == 2
    ensures Run(env, ops) == Step(env, Step(env, INITIAL, ops[0]), ops[1])
  {
    assert ops[..1][..0] == [] && Run(env, ops[..1][..0]) == INITIAL;
  }

  /** A configuration that cannot be decrypted is held all the same, and the next one is taken for it. */
  lemma TakenForUnreadable(env: M.Env, p: Provider, b: Config, a: Config)
    requires !b.IsTemplate() && LoadedForm(env, b).None? && DigestOf(env.hash, M.Kept(env, b)) == DigestOf(env.hash, a)
    ensures Run(env, [Poll(p, Ok([b]), [[]]), Poll(p, Ok([a]), [])]) == State(M.INITIAL, map[p := [a]], map[p := [a]])
  {
    TwoOps(env, [Poll(p, Ok([b]), [[]]), Poll(p, Ok([a]), [])]);
    PollOne(env, INITIAL, p, b, []);
    TakenAgain(env, State(M.INITIAL, map[p := [M.Kept(env, b)]], map[p := [b]]), p, M.Kept(env, b), b, a);
  }

  lemma TakenAgain(env: M.Env, s: State, p: Provider, k: Config, b: Config, a: Config)
    requires s.stored == map[p := [k]] && s.latest == map[p := [b]] && DigestOf(env.hash, k) == DigestOf(env.hash, a)
    ensures Step(env, s, Poll(p, Ok([a]), [])) == State(s.auto, map[p := [a]], map[p := [a]])
  {
    PollSame(env, s, p, k, a);
  }

  /**
   An instance that cannot be decrypted becomes nil, and the next one is not reached. The same configuration without the
   bad instance is then taken for it and never loaded, though it can be decrypted.
   */
  lemma UnreadableInstanceHidesNext()
    ensures var env, p := ExampleEnv(), Provider("file");
            var b := EMPTY.(name := "redis", instances := [UNREADABLE, SECRET]);
            var a := b.(instances := [D.NIL_INSTANCE, SECRET]);
            && Run(env, [Poll(p, Ok([b]), [[]]), Poll(p, Ok([a]), [])]) == State(M.INITIAL, map[p := [a]], map[p := [a]])
            && LoadedForm(env, a).Some?
  {
    var env, p := ExampleEnv(), Provider("file");
    var b := EMPTY.(name := "redis", instances := [UNREADABLE, SECRET]);
    var a := b.(instances := [D.NIL_INSTANCE, SECRET]);
    UnreadableKept(env, b, a);
    TakenForUnreadable(env, p, b, a);
  }

  lemma UnreadableKept(env: M.Env, b: Config, a: Config)
    requires env == ExampleEnv() && b == EMPTY.(name := "redis", instances := [UNREADABLE, SECRET])
    requires a == b.(instances := [D.NIL_INSTANCE, SECRET])
    ensures M.Kept(env, b) == a && LoadedForm(env, b).None? && LoadedForm(env, a).Some?
  {
    assert b.instances[0] == UNREADABLE && b.instances[1..] == [SECRET];
    assert M.WithMetrics(env, b) == b && M.WithMetrics(env, a) == a;
    assert a.instances[0] == D.NIL_INSTANCE && a.instances[1] == SECRET;
  }

  // ----- shared digests -----

  /** Two templates that differ only in ignoreAutodiscoveryTags: removing the first unloads what the second resolves to. */
  lemma TagsFlagShared()
    ensures var env, e, id := ExampleEnv(), M.Entity("e"), AdId("id");
            var a, svc := EMPTY.(name := "redis", adIdentifiers := [id]), M.Service(e, Ok([id]), "");
            var b := a.(ignoreAutodiscoveryTags := true);
            var s := M.Run(env, SD.SharingRun(a, b, svc));
            var x := DigestOf(env.hash, a.(entity := "e"));
            && T.RunOf(env, T.Universe(c => c == a || c == b, c => c == a, t => t == svc), SD.SharingRun(a, b, svc))
            && SD.Owed(env, s, x) && x !in s.loadedConfigs && x !in s.active
  {
    var env, e, id := ExampleEnv(), M.Entity("e"), AdId("id");
    var a, svc := EMPTY.(name := "redis", adIdentifiers := [id]), M.Service(e, Ok([id]), "");
    var b, r := a.(ignoreAutodiscoveryTags := true), a.(entity := "e");
    assert M.WithMetrics(env, a) == a && M.WithMetrics(env, b) == b;
    assert D.Decrypted(env.secrets, r) == Ok(r);
    assert M.ResolvedConfig(env, a, svc) == Ok(r) == M.ResolvedConfig(env, b, svc);
    InputLength(a);
    InputLength(b);
    var u := T.Universe(c => c == a || c == b, c => c == a, t => t == svc);
    SD.SharedDigestUnloaded(env, u, a, b, svc, id, DigestOf(env.hash, r));
  }

  lemma ThreeOps(env: M.Env, ops: seq<Op>)
    requires |ops| == 3
    ensures Run(env, ops) == Step(env, Step(env, Step(env, INITIAL, ops[0]), ops[1]), ops[2])
  {
    assert ops[..2][..1] == ops[..1] && ops[..1][..0] == [];
    assert Run(env, ops[..1][..0]) == INITIAL && Run(env, ops[..1]) == Step(env, INITIAL, ops[0]);
  }

  lemma TwoHolders(env: M.Env, p: Provider, q: Provider, c: Config)
    requires p != q
    ensures var k, a := M.Kept(env, c), M.NewConfig(env, M.NewConfig(env, M.INITIAL, c, []), c, []);
            Step(env, Step(env, INITIAL, Poll(p, Ok([c]), [[]])), Poll(q, Ok([c]), [[]]))
            == State(a, map[p := [k], q := [k]], map[p := [c], q := [c]])
  {
    var k := M.Kept(env, c);
    PollOne(env, INITIAL, p, c, []);
    PollOne(env, State(M.NewConfig(env, M.INITIAL, c, []), map[p := [k]], map[p := [c]]), q, c, []);
  }

  lemma MapReset<V(!new)>(p: Provider, q: Provider, first: V, second: V, last: V)
    requires p != q
    ensures map[p := first, q := second][p := last] == map[p := last, q := second]
  {}

  lemma FirstDrops(env: M.Env, s: State, p: Provider, q: Provider, k: Config, c: Config)
    requires p != q && s.stored == map[p := [k], q := [k]] && s.latest == map[p := [c], q := [c]]
    ensures Step(env, s, Poll(p, Ok([]), []))
         == State(M.RemovedTemplate(env, M.Removed(env, s.auto, [k]), k), map[p := [], q := [k]], map[p := [], q := [c]])
  {
    PollNone(env, s, p, k);
    MapReset(p, q, [k], [k], []);
    MapReset(p, q, [c], [c], []);
  }

  /** Two providers return one configuration and the first drops it: the second holds what is no longer loaded or cached. */
  lemma SecondHolderLeftOut(env: M.Env, p: Provider, q: Provider, c: Config)
    requires p != q
    ensures var s := Run(env, [Poll(p, Ok([c]), [[]]), Poll(q, Ok([c]), [[]]), Poll(p, Ok([]), [])]);
            && s.stored == map[p := [], q := [M.Kept(env, c)]]
            && DigestOf(env.hash, M.Kept(env, c)) !in s.auto.loadedConfigs
            && DigestOf(env.hash, M.Kept(env, c)) !in s.auto.active
            && (c.IsTemplate() ==> DigestOf(env.hash, c) !in s.auto.cache.digestToTemplate)
  {
    ThreeOps(env, [Poll(p, Ok([c]), [[]]), Poll(q, Ok([c]), [[]]), Poll(p, Ok([]), [])]);
    var a := M.NewConfig(env, M.INITIAL, c, []);
    TwoHolders(env, p, q, c);
    FirstDrops(env, State(M.NewConfig(env, a, c, []), map[p := [M.Kept(env, c)], q := [M.Kept(env, c)]], map[p := [c], q := [c]]),
               p, q, M.Kept(env, c), c);
    NewConfigCache(env, M.INITIAL, c, []);
    NewConfigCache(env, a, c, []);
    C.DroppedDigest(env, M.NewConfig(env, a, c, []), M.Kept(env, c));
  }

  /** Identifiers cut in two ways: the entry that one template leaves for the other gives a service the empty template. */
  lemma CutLoadsEmpty()
    ensures var a, b := EMPTY.(adIdentifiers := [AdId("a"), AdId("b")]), EMPTY.(adIdentifiers := [AdId("ab")]);
            var svc := M.Service(M.Entity("e"), Ok([AdId("a")]), "");
            !T.NoStaleLoad(ExampleEnv(), T.Universe(c => c == a, c => c == b, t => t == svc))
  {
    var env, id := ExampleEnv(), AdId("a");
    var a, b := EMPTY.(adIdentifiers := [AdId("a"), AdId("b")]), EMPTY.(adIdentifiers := [AdId("ab")]);
    var svc := M.Service(M.Entity("e"), Ok([id]), "");
    var u := T.Universe(c => c == a, c => c == b, t => t == svc);
    TC.CutsClash(env.hash, EMPTY);
    assert M.WithMetrics(env, a) == a && T.Ids(svc)[0] == id;
    LoadsEmpty(env, u, a, b, id, DigestOf(env.hash, a), svc);
  }

  lemma LoadsEmpty(env: M.Env, u: T.Universe, raw: Config, g: Config, id: AdId, d: Digest, svc: M.Service)
    requires T.Outlives(env, u, raw, g, id, d) && u.service(svc) && id in T.Ids(svc) && M.ResolvedConfig(env, EMPTY, svc).Ok?
    ensures !T.NoStaleLoad(env, u)
  {
    assert T.StaleAt(env, u, id, d);
  }
}
