/**
 Polls of pkg/autodiscovery/config_poller.go and what they do to the loaded configurations of autoconfig.go, over
 whole runs of any number of providers: what stays loaded or cached after its provider dropped it.
 Main results: StaticRemovedIff, TemplateRemovedIff. ProviderConverse has the other inclusions.
 */
module ProviderRuns {
  import opened Integration
  import opened Wrappers
  import opened ConfigPoller
  import D = Decryption
  import M = AutoConfigRuns
  import TC = TemplateCache
  import T = TemplateRuns

  datatype Provider = Provider(name: string)

  /** `stored` is what the poller of each provider holds, shared instances included; `latest` what the provider last returned. */
  datatype State = State(auto: M.State, stored: map<Provider, seq<Config>>, latest: map<Provider, seq<Config>>)

  const INITIAL := State(M.INITIAL, map[], map[])

  // ----- one poll -----

  /** `visits` says for each new configuration in which order its services are tried. */
  function AddAll(env: M.Env, a: M.State, cs: seq<Config>, visits: seq<seq<M.Entity>>): M.State {
    if cs == [] then a
    else
      var n := |cs| - 1;
      M.NewConfig(env, AddAll(env, a, cs[..n], visits), cs[n], if n < |visits| then visits[n] else [])
  }

  /** What is gone is unscheduled and unloaded, and its templates are removed. */
  function Emptied(env: M.Env, a: M.State, removed: seq<Config>): M.State {
    M.RemovedTemplates(env, M.Removed(env, a, removed), removed)
  }

  /** What is removed goes first, then what is new is added. */
  function Polled(env: M.Env, a: M.State, d: Diff, visits: seq<seq<M.Entity>>): M.State {
    AddAll(env, Emptied(env, a, d.removed), d.added, visits)
  }

  function Rewrite(env: M.Env): Config -> Config {
    c => M.Kept(env, c)
  }

  datatype Op =
    | Poll(p: Provider, fetched: Result<seq<Config>>, visits: seq<seq<M.Entity>>)
    | AddService(svc: M.Service)
    | RemoveService(e: M.Entity)

  function KnownTo(s: State, p: Provider): seq<Config> {
    if p in s.stored then s.stored[p] else []
  }

  function Latest(s: State, p: Provider): seq<Config> {
    if p in s.latest then s.latest[p] else []
  }

  function Step(env: M.Env, s: State, op: Op): State {
    match op
    case Poll(p, Err, _) => s
    case Poll(p, Ok(fetched), visits) =>
      State(Polled(env, s.auto, DiffOf(env.hash, KnownTo(s, p), Ok(fetched)), visits),
            s.stored[p := StoredAfter(env.hash, Rewrite(env), KnownTo(s, p), fetched)],
            s.latest[p := fetched])
    case AddService(svc) => s.(auto := M.NewService(env, s.auto, svc))
    case RemoveService(e) => s.(auto := M.DelService(env, s.auto, e))
  }

  function Run(env: M.Env, ops: seq<Op>): State {
    if ops == [] then INITIAL else Step(env, Run(env, ops[..|ops| - 1]), ops[|ops| - 1])
  }

  // ----- what may come -----

  /** What each provider may return, and the services that may come. */
  datatype Sources = Sources(may: (Provider, Config) -> bool, service: M.Service -> bool)

  /** The services that each new template is tried on are those registered for it at that moment. */
  ghost predicate AllVisits(env: M.Env, a: M.State, cs: seq<Config>, visits: seq<seq<M.Entity>>) {
    |visits| == |cs| &&
    forall j :: 0 <= j < |cs| && cs[j].IsTemplate() ==>
      M.Visits(AddAll(env, a, cs[..j], visits), cs[j].adIdentifiers, visits[j])
  }

  ghost predicate Fits(env: M.Env, src: Sources, s: State, op: Op) {
    match op
    case Poll(p, Err, _) => true
    case Poll(p, Ok(fetched), visits) =>
      var d := DiffOf(env.hash, KnownTo(s, p), Ok(fetched));
      (forall c :: c in fetched ==> src.may(p, c)) && AllVisits(env, Emptied(env, s.auto, d.removed), d.added, visits)
    case AddService(svc) => src.service(svc)
    case RemoveService(e) => true
  }

  ghost predicate RunOf(env: M.Env, src: Sources, ops: seq<Op>) {
    ops == [] || (RunOf(env, src, ops[..|ops| - 1]) && Fits(env, src, Run(env, ops[..|ops| - 1]), ops[|ops| - 1]))
  }

  /** The states that some run leads to. */
  ghost predicate Reached(env: M.Env, src: Sources, s: State) {
    exists ops :: RunOf(env, src, ops) && Run(env, ops) == s
  }

  lemma ReachedFirst(env: M.Env, src: Sources)
    ensures Reached(env, src, INITIAL)
  {
    assert RunOf(env, src, []) && Run(env, []) == INITIAL;
  }

  lemma RunMore(env: M.Env, src: Sources, ops: seq<Op>, op: Op)
    requires RunOf(env, src, ops) && Fits(env, src, Run(env, ops), op)
    ensures RunOf(env, src, ops + [op]) && Run(env, ops + [op]) == Step(env, Run(env, ops), op)
  {
    var more := ops + [op];
    assert more[..|more| - 1] == ops && more[|more| - 1] == op;
  }

  lemma ReachedNext(env: M.Env, src: Sources, s: State, op: Op)
    requires Reached(env, src, s) && Fits(env, src, s, op)
    ensures Reached(env, src, Step(env, s, op))
  {
    var ops :| RunOf(env, src, ops) && Run(env, ops) == s;
    RunMore(env, src, ops, op);
  }

  lemma OneMoreVisit(env: M.Env, a: M.State, added: seq<Config>, n: nat, visits: seq<seq<M.Entity>>, more: seq<M.Entity>)
    requires n < |added| && AllVisits(env, a, added[..n], visits)
    requires added[n].IsTemplate() ==> M.Visits(AddAll(env, a, added[..n], visits), added[n].adIdentifiers, more)
    ensures AllVisits(env, a, added[..n + 1], visits + [more])
  {
    var cs := added[..n + 1];
    forall j | 0 <= j < |cs| && cs[j].IsTemplate()
      ensures M.Visits(AddAll(env, a, cs[..j], visits + [more]), cs[j].adIdentifiers, (visits + [more])[j])
    {
      assert cs[..j] == added[..n][..j];
      SameVisits(env, a, cs[..j], visits, more);
      assert j == n ==> added[..n][..j] == added[..n];
    }
  }

  lemma {:induction false} SameVisits(env: M.Env, a: M.State, cs: seq<Config>, visits: seq<seq<M.Entity>>, more: seq<M.Entity>)
    requires |cs| <= |visits|
    ensures AddAll(env, a, cs, visits + [more]) == AddAll(env, a, cs, visits)
  {
    if cs != [] {
      SameVisits(env, a, cs[..|cs| - 1], visits, more);
    }
  }

  /** In every state new configurations can be tried in some order. */
  lemma {:induction false} SomeAllVisits(env: M.Env, a: M.State, cs: seq<Config>) returns (visits: seq<seq<M.Entity>>)
    ensures AllVisits(env, a, cs, visits)
  {
    if cs == [] {
      visits := [];
    } else {
      var n := |cs| - 1;
      var before := SomeAllVisits(env, a, cs[..n]);
      var more := T.SomeVisits(AddAll(env, a, cs[..n], before), cs[n].adIdentifiers);
      visits := before + [more];
      OneMoreVisit(env, a, cs, n, before, more);
      assert cs[..n + 1] == cs;
    }
  }

  lemma Polls(env: M.Env, src: Sources, s: State, p: Provider, fetched: seq<Config>) returns (visits: seq<seq<M.Entity>>)
    requires Reached(env, src, s) && forall c :: c in fetched ==> src.may(p, c)
    ensures Reached(env, src, Step(env, s, Poll(p, Ok(fetched), visits)))
    ensures var d := DiffOf(env.hash, KnownTo(s, p), Ok(fetched)); AllVisits(env, Emptied(env, s.auto, d.removed), d.added, visits)
  {
    var d := DiffOf(env.hash, KnownTo(s, p), Ok(fetched));
    visits := SomeAllVisits(env, Emptied(env, s.auto, d.removed), d.added);
    ReachedNext(env, src, s, Poll(p, Ok(fetched), visits));
  }

  // ----- coverage carries over -----

  lemma {:induction false} AddAllKeeps(env: M.Env, a: M.State, cs: seq<Config>, visits: seq<seq<M.Entity>>)
    requires M.Covered(env, a)
    ensures M.Covered(env, AddAll(env, a, cs, visits))
  {
    if cs != [] {
      var n := |cs| - 1;
      AddAllKeeps(env, a, cs[..n], visits);
      M.NewConfigKeeps(env, AddAll(env, a, cs[..n], visits), cs[n], if n < |visits| then visits[n] else []);
    }
  }

  lemma StepKeeps(env: M.Env, s: State, op: Op)
    requires M.Covered(env, s.auto)
    ensures M.Covered(env, Step(env, s, op).auto)
  {
    match op
    case Poll(p, Err, _) =>
    case Poll(p, Ok(fetched), visits) =>
      var d := DiffOf(env.hash, KnownTo(s, p), Ok(fetched));
      M.RemovedKeeps(env, s.auto, d.removed);
      M.RemovedTemplatesKeep(env, M.Removed(env, s.auto, d.removed), d.removed);
      AddAllKeeps(env, M.RemovedTemplates(env, M.Removed(env, s.auto, d.removed), d.removed), d.added, visits);
    case AddService(svc) => M.NewServiceKeeps(env, s.auto, svc);
    case RemoveService(e) => M.DelServiceKeeps(env, s.auto, e);
  }

  lemma {:induction false} RunCovered(env: M.Env, ops: seq<Op>)
    ensures M.Covered(env, Run(env, ops).auto)
  {
    if ops != [] {
      RunCovered(env, ops[..|ops| - 1]);
      StepKeeps(env, Run(env, ops[..|ops| - 1]), ops[|ops| - 1]);
    }
  }

  // ----- a removed configuration that is not a template -----

  /** What the configuration loads, if it is not a template and can be decrypted. */
  function LoadedForm(env: M.Env, c: Config): Option<Config> {
    if c.IsTemplate() then None
    else
      match D.Decrypted(env.secrets, M.WithMetrics(env, c))
      case Err => None
      case Ok(loaded) => Some(loaded)
  }

  /** Neither the JMX metrics nor decrypting init_config and logs changes the digest; the instances may change it. */
  predicate SameWhenLoaded(env: M.Env, c: Config) {
    LoadedForm(env, c).Some? ==> DigestOf(env.hash, LoadedForm(env, c).value) == DigestOf(env.hash, M.Kept(env, c))
  }

  ghost predicate AllSame(env: M.Env, src: Sources) {
    forall p, c :: src.may(p, c) ==> SameWhenLoaded(env, c)
  }

  /** Every digest loaded from a configuration that is not a template is one that some poller still holds. */
  ghost predicate PlainHeld(env: M.Env, s: State) {
    forall d {:trigger d in s.auto.plain} :: d in s.auto.plain ==> M.Listed(env.hash, s.stored, d)
  }

  lemma {:induction false} AddAllPlain(env: M.Env, a: M.State, cs: seq<Config>, visits: seq<seq<M.Entity>>, d: Digest)
    requires d in AddAll(env, a, cs, visits).plain
    ensures d in a.plain || exists c :: c in cs && LoadedForm(env, c).Some? && DigestOf(env.hash, LoadedForm(env, c).value) == d
  {
    if cs != [] {
      var n := |cs| - 1;
      var before, c := AddAll(env, a, cs[..n], visits), cs[n];
      assert c in cs;
      NewConfigPlain(env, before, c, if n < |visits| then visits[n] else [], d);
      if d in before.plain {
        AddAllPlain(env, a, cs[..n], visits, d);
      }
    }
  }

  lemma NewConfigPlain(env: M.Env, a: M.State, c: Config, visits: seq<M.Entity>, d: Digest)
    requires d in M.NewConfig(env, a, c, visits).plain
    ensures d in a.plain || (LoadedForm(env, c).Some? && DigestOf(env.hash, LoadedForm(env, c).value) == d)
  {
    if c.IsTemplate() {
      var withMetrics := M.WithMetrics(env, c);
      M.ResolvedSamePlain(env, a.(cache := TC.Stored(env.hash, a.cache, withMetrics)), M.Known(a, withMetrics, visits));
    }
  }

  lemma {:induction false} RemovedTemplatesPlain(env: M.Env, a: M.State, cs: seq<Config>)
    ensures M.RemovedTemplates(env, a, cs).plain <= a.plain
  {
    if cs != [] {
      RemovedTemplatesPlain(env, a, cs[..|cs| - 1]);
    }
  }

  /** A digest that a poller held and still sees, or just took over, is one that it holds afterwards. */
  lemma HeldAfter(env: M.Env, known: seq<Config>, fetched: seq<Config>, d: Digest)
    requires d in Digests(env.hash, known) && d !in Digests(env.hash, Missing(env.hash, known, fetched))
    ensures d in Digests(env.hash, StoredAfter(env.hash, Rewrite(env), known, fetched))
  {
    MissingDigests(env.hash, known, fetched);
    var k :| 0 <= k < |fetched| && DigestOf(env.hash, fetched[k]) == d;
    assert Contains(env.hash, known, fetched[k]);
    assert StoredAfter(env.hash, Rewrite(env), known, fetched)[k] == fetched[k];
  }

  lemma HeldNew(env: M.Env, known: seq<Config>, fetched: seq<Config>, c: Config)
    requires c in Missing(env.hash, fetched, known)
    ensures c in fetched
    ensures M.Kept(env, c) in StoredAfter(env.hash, Rewrite(env), known, fetched)
    ensures DigestOf(env.hash, M.Kept(env, c)) in Digests(env.hash, StoredAfter(env.hash, Rewrite(env), known, fetched))
  {
    PositionsOfMissing(env.hash, fetched, known);
    var at := Positions(env.hash, fetched, known);
    var j :| 0 <= j < |at| && Missing(env.hash, fetched, known)[j] == c;
    assert fetched[at[j]] == c;
    assert StoredAfter(env.hash, Rewrite(env), known, fetched)[at[j]] == M.Kept(env, c);
  }

  lemma PollHeld(env: M.Env, s: State, p: Provider, fetched: seq<Config>, visits: seq<seq<M.Entity>>)
    requires PlainHeld(env, s) && forall c :: c in fetched ==> SameWhenLoaded(env, c)
    ensures PlainHeld(env, Step(env, s, Poll(p, Ok(fetched), visits)))
  {
    var known, s' := KnownTo(s, p), Step(env, s, Poll(p, Ok(fetched), visits));
    var diff := DiffOf(env.hash, known, Ok(fetched));
    var removed := M.Removed(env, s.auto, diff.removed);
    RemovedTemplatesPlain(env, removed, diff.removed);
    forall d | d in s'.auto.plain
      ensures M.Listed(env.hash, s'.stored, d)
    {
      AddAllPlain(env, M.RemovedTemplates(env, removed, diff.removed), diff.added, visits, d);
      if d in removed.plain {
        var q :| q in s.stored && d in Digests(env.hash, s.stored[q]);
        if q == p {
          HeldAfter(env, known, fetched, d);
        }
        assert q in s'.stored && d in Digests(env.hash, s'.stored[q]);
      } else {
        var c :| c in diff.added && LoadedForm(env, c).Some? && DigestOf(env.hash, LoadedForm(env, c).value) == d;
        HeldNew(env, known, fetched, c);
        assert p in s'.stored && d in Digests(env.hash, s'.stored[p]);
      }
    }
  }

  lemma StepHeld(env: M.Env, src: Sources, s: State, op: Op)
    requires PlainHeld(env, s) && Fits(env, src, s, op) && AllSame(env, src)
    ensures PlainHeld(env, Step(env, s, op))
  {
    match op
    case Poll(p, Err, _) =>
    case Poll(p, Ok(fetched), visits) => PollHeld(env, s, p, fetched, visits);
    case AddService(svc) =>
      if svc.adIdentifiers.Ok? {
        M.ResolvedSamePlain(env, T.Arrived(s.auto, svc), M.MatchAll(M.TemplatesFor(s.auto.cache, T.Ids(svc)), svc));
      }
    case RemoveService(e) =>
  }

  lemma {:induction false} RunHeld(env: M.Env, src: Sources, ops: seq<Op>)
    requires RunOf(env, src, ops) && AllSame(env, src)
    ensures PlainHeld(env, Run(env, ops))
  {
    if ops != [] {
      RunHeld(env, src, ops[..|ops| - 1]);
      StepHeld(env, src, Run(env, ops[..|ops| - 1]), ops[|ops| - 1]);
    }
  }

  // ----- one configuration, fetched and then gone -----

  /** The run that fetches one configuration at the end of `ops`, from a provider that had none, and then nothing. */
  function FetchedOnce(ops: seq<Op>, p: Provider, c: Config, visits: seq<M.Entity>): seq<Op> {
    ops + [Poll(p, Ok([c]), [visits]), Poll(p, Ok([]), [])]
  }

  lemma AddOne(env: M.Env, a: M.State, c: Config, visits: seq<M.Entity>)
    ensures Polled(env, a, Diff([c], []), [visits]) == M.NewConfig(env, a, c, visits)
  {
    NothingRemoved(env, a);
    assert [c][..0] == [] && [c][0] == c;
    assert AddAll(env, a, [c][..0], [visits]) == a;
  }

  lemma NothingRemoved(env: M.Env, a: M.State)
    ensures M.RemovedTemplates(env, M.Removed(env, a, []), []) == a
  {
    assert a.loadedConfigs - {} == a.loadedConfigs && a.active - {} == a.active && a.plain - {} == a.plain;
    assert Digests(env.hash, []) == {};
  }

  lemma RemoveOne(env: M.Env, a: M.State, c: Config)
    ensures Polled(env, a, Diff([], [c]), []) == M.RemovedTemplate(env, M.Removed(env, a, [c]), c)
  {
    M.RemovedTemplatesOne(env, M.Removed(env, a, [c]), c);
  }

  lemma PollOne(env: M.Env, s: State, p: Provider, c: Config, visits: seq<M.Entity>)
    requires KnownTo(s, p) == []
    ensures Step(env, s, Poll(p, Ok([c]), [visits])) ==
            State(M.NewConfig(env, s.auto, c, visits), s.stored[p := [M.Kept(env, c)]], s.latest[p := [c]])
  {
    OneMissing(env.hash, c);
    AddOne(env, s.auto, c, visits);
    assert StoredAfter(env.hash, Rewrite(env), [], [c]) == [M.Kept(env, c)];
  }

  lemma PollNone(env: M.Env, s: State, p: Provider, c: Config)
    requires KnownTo(s, p) == [c]
    ensures Step(env, s, Poll(p, Ok([]), [])) ==
            State(M.RemovedTemplate(env, M.Removed(env, s.auto, [c]), c), s.stored[p := []], s.latest[p := []])
  {
    OneMissing(env.hash, c);
    RemoveOne(env, s.auto, c);
    assert StoredAfter(env.hash, Rewrite(env), [c], []) == [];
  }

  lemma FetchedOnceIs(env: M.Env, ops: seq<Op>, p: Provider, c: Config, visits: seq<M.Entity>)
    requires KnownTo(Run(env, ops), p) == []
    ensures var a := M.NewConfig(env, Run(env, ops).auto, c, visits);
            Run(env, FetchedOnce(ops, p, c, visits)) ==
            State(M.RemovedTemplate(env, M.Removed(env, a, [M.Kept(env, c)]), M.Kept(env, c)),
                  Run(env, ops).stored[p := []], Run(env, ops).latest[p := []])
  {
    TwoMore(env, ops, Poll(p, Ok([c]), [visits]), Poll(p, Ok([]), []));
    PollTwice(env, Run(env, ops), p, c, visits);
  }

  lemma PollTwice(env: M.Env, s: State, p: Provider, c: Config, visits: seq<M.Entity>)
    requires KnownTo(s, p) == []
    ensures var a := M.NewConfig(env, s.auto, c, visits);
            Step(env, Step(env, s, Poll(p, Ok([c]), [visits])), Poll(p, Ok([]), [])) ==
            State(M.RemovedTemplate(env, M.Removed(env, a, [M.Kept(env, c)]), M.Kept(env, c)), s.stored[p := []], s.latest[p := []])
  {
    PollOne(env, s, p, c, visits);
    var s1 := State(M.NewConfig(env, s.auto, c, visits), s.stored[p := [M.Kept(env, c)]], s.latest[p := [c]]);
    assert s1.stored[p := []] == s.stored[p := []] && s1.latest[p := []] == s.latest[p := []] && KnownTo(s1, p) == [M.Kept(env, c)];
    PollNone(env, s1, p, M.Kept(env, c));
  }

  lemma TwoMore(env: M.Env, ops: seq<Op>, a: Op, b: Op)
    ensures Run(env, ops + [a, b]) == Step(env, Step(env, Run(env, ops), a), b)
  {
    assert (ops + [a, b])[..|ops| + 1] == ops + [a];
    assert (ops + [a])[..|ops|] == ops;
  }

  /** After any run: such a configuration is unloaded exactly when loading did not change its digest. */
  lemma StaticUnloadedIff(env: M.Env, ops: seq<Op>, p: Provider, c: Config)
    requires KnownTo(Run(env, ops), p) == [] && LoadedForm(env, c).Some?
    ensures var s, d := Run(env, FetchedOnce(ops, p, c, [])), DigestOf(env.hash, LoadedForm(env, c).value);
            && ((d !in s.auto.loadedConfigs && d !in s.auto.active && d !in s.auto.plain) <==> SameWhenLoaded(env, c))
            && (d in s.auto.plain <==> !SameWhenLoaded(env, c))
  {
    FetchedOnceIs(env, ops, p, c, []);
    M.DigestsOne(env.hash, M.Kept(env, c));
  }

  // ----- one poll after another, on reachable states -----

  lemma FetchOne(env: M.Env, src: Sources, s: State, p: Provider, c: Config) returns (s': State, visits: seq<M.Entity>)
    requires Reached(env, src, s) && KnownTo(s, p) == [] && src.may(p, c)
    ensures Reached(env, src, s') && s' == State(M.NewConfig(env, s.auto, c, visits), s.stored[p := [M.Kept(env, c)]], s.latest[p := [c]])
    ensures c.IsTemplate() ==> M.Visits(s.auto, c.adIdentifiers, visits)
  {
    var all := Polls(env, src, s, p, [c]);
    OneMissing(env.hash, c);
    NothingRemoved(env, s.auto);
    visits := all[0];
    assert all == [visits] && [c][..0] == [];
    PollOne(env, s, p, c, visits);
    s' := Step(env, s, Poll(p, Ok([c]), [visits]));
  }

  lemma DropOne(env: M.Env, src: Sources, s: State, p: Provider, c: Config) returns (s': State)
    requires Reached(env, src, s) && KnownTo(s, p) == [c]
    ensures Reached(env, src, s') && s' == State(M.RemovedTemplate(env, M.Removed(env, s.auto, [c]), c), s.stored[p := []], s.latest[p := []])
  {
    var none := Polls(env, src, s, p, []);
    OneMissing(env.hash, c);
    assert none == [];
    PollNone(env, s, p, c);
    s' := Step(env, s, Poll(p, Ok([]), []));
  }

  lemma SwapOther(env: M.Env, src: Sources, s: State, p: Provider, c: Config, f: Config) returns (s': State, visits: seq<M.Entity>)
    requires Reached(env, src, s) && KnownTo(s, p) == [c] && src.may(p, f) && DigestOf(env.hash, c) != DigestOf(env.hash, f)
    ensures Reached(env, src, s')
    ensures s' == State(M.NewConfig(env, M.RemovedTemplate(env, M.Removed(env, s.auto, [c]), c), f, visits),
                        s.stored[p := [M.Kept(env, f)]], s.latest[p := [f]])
  {
    var all := Polls(env, src, s, p, [f]);
    OneAgainstOne(env.hash, f, c);
    OneAgainstOne(env.hash, c, f);
    M.RemovedTemplatesOne(env, M.Removed(env, s.auto, [c]), c);
    visits := all[0];
    assert all == [visits] && [f][0] == f && [f][..0] == [];
    assert !Contains(env.hash, [c], f) by {
      assert [c][0] == c;
    }
    assert StoredAfter(env.hash, Rewrite(env), [c], [f]) == [M.Kept(env, f)];
    var gone := Emptied(env, s.auto, [c]);
    assert AddAll(env, gone, [f][..0], all) == gone;
    s' := Step(env, s, Poll(p, Ok([f]), all));
  }

  lemma PollSame(env: M.Env, s: State, p: Provider, c: Config, f: Config)
    requires KnownTo(s, p) == [c] && DigestOf(env.hash, c) == DigestOf(env.hash, f)
    ensures Step(env, s, Poll(p, Ok([f]), [])) == s.(stored := s.stored[p := [f]], latest := s.latest[p := [f]])
    ensures Missing(env.hash, [f], [c]) == []
  {
    OneAgainstOne(env.hash, f, c);
    OneAgainstOne(env.hash, c, f);
    NothingRemoved(env, s.auto);
    assert Contains(env.hash, [c], f) by {
      assert [c][0] == c;
    }
    assert StoredAfter(env.hash, Rewrite(env), [c], [f]) == [f];
  }

  lemma SwapSame(env: M.Env, src: Sources, s: State, p: Provider, c: Config, f: Config) returns (s': State)
    requires Reached(env, src, s) && KnownTo(s, p) == [c] && src.may(p, f) && DigestOf(env.hash, c) == DigestOf(env.hash, f)
    ensures Reached(env, src, s') && s' == s.(stored := s.stored[p := [f]], latest := s.latest[p := [f]])
  {
    var none := Polls(env, src, s, p, [f]);
    PollSame(env, s, p, c, f);
    assert none == [];
    s' := Step(env, s, Poll(p, Ok([f]), []));
  }

  /** What such a configuration loaded stays, though no poller holds anything any more. */
  lemma StaticStays(env: M.Env, src: Sources, p: Provider, c: Config) returns (s: State)
    requires src.may(p, c) && !SameWhenLoaded(env, c)
    ensures Reached(env, src, s) && s.stored == map[p := []]
    ensures var d := DigestOf(env.hash, LoadedForm(env, c).value); d in s.auto.plain && d in s.auto.loadedConfigs
  {
    ReachedFirst(env, src);
    var s1, visits := FetchOne(env, src, INITIAL, p, c);
    s := DropOne(env, src, s1, p, M.Kept(env, c));
    M.DigestsOne(env.hash, M.Kept(env, c));
  }

  /**
   In every run of polls and services, what is loaded without a template is held by some poller, exactly
   when loading changes the digest of none of the configurations that the providers may return.
   */
  lemma StaticRemovedIff(env: M.Env, src: Sources)
    ensures (forall s :: Reached(env, src, s) ==> PlainHeld(env, s)) <==> AllSame(env, src)
  {
    if AllSame(env, src) {
      forall s | Reached(env, src, s)
        ensures PlainHeld(env, s)
      {
        var ops :| RunOf(env, src, ops) && Run(env, ops) == s;
        RunHeld(env, src, ops);
      }
    } else {
      var p, c :| src.may(p, c) && !SameWhenLoaded(env, c);
      var s := StaticStays(env, src, p, c);
      assert !M.Listed(env.hash, s.stored, DigestOf(env.hash, LoadedForm(env, c).value));
    }
  }

  // ----- a removed template -----

  /** Adding its JMX metrics does not change the digest of a template. */
  predicate SameWhenCached(env: M.Env, c: Config) {
    c.IsTemplate() ==> DigestOf(env.hash, M.WithMetrics(env, c)) == DigestOf(env.hash, c)
  }

  ghost predicate AllCachedSame(env: M.Env, src: Sources) {
    forall p, c :: src.may(p, c) ==> SameWhenCached(env, c)
  }

  /** No provider returns a template and a configuration that is not one under the same digest. */
  ghost predicate KindsApart(env: M.Env, src: Sources) {
    forall p, c, f :: src.may(p, c) && src.may(p, f) && c.IsTemplate() && !f.IsTemplate() ==> DigestOf(env.hash, c) != DigestOf(env.hash, f)
  }

  ghost predicate HeldTemplate(env: M.Env, stored: map<Provider, seq<Config>>, d: Digest) {
    exists p, c :: p in stored && c in stored[p] && c.IsTemplate() && DigestOf(env.hash, c) == d
  }

  /** Every cached template is one that some poller still holds. */
  ghost predicate CachedHeld(env: M.Env, s: State) {
    && s.auto.cache.digestToADId.Keys == s.auto.cache.digestToTemplate.Keys
    && forall d {:trigger d in s.auto.cache.digestToTemplate} ::
         d in s.auto.cache.digestToTemplate ==> HeldTemplate(env, s.stored, d)
  }

  /** The templates that the pollers hold are as the providers returned them. */
  ghost predicate TemplatesAllowed(src: Sources, s: State) {
    forall p, c :: p in s.stored && c in s.stored[p] && c.IsTemplate() ==> src.may(p, c)
  }

  lemma {:induction false} RemovedTemplatesCache(env: M.Env, a: M.State, cs: seq<Config>)
    requires a.cache.digestToADId.Keys == a.cache.digestToTemplate.Keys
    ensures var cache := M.RemovedTemplates(env, a, cs).cache;
            cache.digestToADId.Keys == cache.digestToTemplate.Keys == a.cache.digestToTemplate.Keys - M.TemplateDigests(env.hash, cs)
  {
    if cs != [] {
      RemovedTemplatesCache(env, a, cs[..|cs| - 1]);
      M.TemplateDigestsMore(env.hash, cs);
    }
  }

  lemma NewConfigCache(env: M.Env, a: M.State, c: Config, visits: seq<M.Entity>)
    requires a.cache.digestToADId.Keys == a.cache.digestToTemplate.Keys
    ensures var cache := M.NewConfig(env, a, c, visits).cache;
            cache.digestToADId.Keys == cache.digestToTemplate.Keys ==
            a.cache.digestToTemplate.Keys + if c.IsTemplate() then {DigestOf(env.hash, M.WithMetrics(env, c))} else {}
  {
    if c.IsTemplate() {
      var withMetrics := M.WithMetrics(env, c);
      M.ResolvedSameCache(env, a.(cache := TC.Stored(env.hash, a.cache, withMetrics)), M.Known(a, withMetrics, visits));
    }
  }

  lemma {:induction false} AddAllCache(env: M.Env, a: M.State, cs: seq<Config>, visits: seq<seq<M.Entity>>)
    requires a.cache.digestToADId.Keys == a.cache.digestToTemplate.Keys
    ensures var cache := AddAll(env, a, cs, visits).cache;
            && cache.digestToADId.Keys == cache.digestToTemplate.Keys
            && a.cache.digestToTemplate.Keys <= cache.digestToTemplate.Keys
            && (forall c :: c in cs && c.IsTemplate() ==> DigestOf(env.hash, M.WithMetrics(env, c)) in cache.digestToTemplate)
            && forall d :: d in cache.digestToTemplate ==>
                 d in a.cache.digestToTemplate ||
                 exists c :: c in cs && c.IsTemplate() && DigestOf(env.hash, M.WithMetrics(env, c)) == d
  {
    if cs != [] {
      var n := |cs| - 1;
      AddAllCache(env, a, cs[..n], visits);
      NewConfigCache(env, AddAll(env, a, cs[..n], visits), cs[n], if n < |visits| then visits[n] else []);
      assert cs[n] in cs;
    }
  }

  lemma MissingOr(hash: string -> Digest, configs: seq<Config>, from: seq<Config>, c: Config)
    requires c in configs
    ensures Contains(hash, from, c) || c in Missing(hash, configs, from)
    ensures c.IsTemplate() && DigestOf(hash, c) !in M.TemplateDigests(hash, Missing(hash, configs, from)) ==> Contains(hash, from, c)
  {
    PositionsOfMissing(hash, configs, from);
    var i :| 0 <= i < |configs| && configs[i] == c;
    var at := Positions(hash, configs, from);
    if i in at {
      var j :| 0 <= j < |at| && at[j] == i;
      assert Missing(hash, configs, from)[j] == c;
    }
  }

  lemma TemplateHeldAfter(env: M.Env, src: Sources, p: Provider, known: seq<Config>, fetched: seq<Config>, c: Config)
    requires c in known && c.IsTemplate() && src.may(p, c) && KindsApart(env, src) && forall f :: f in fetched ==> src.may(p, f)
    requires DigestOf(env.hash, c) !in M.TemplateDigests(env.hash, Missing(env.hash, known, fetched))
    ensures exists f :: f in StoredAfter(env.hash, Rewrite(env), known, fetched) && f.IsTemplate() &&
                        DigestOf(env.hash, f) == DigestOf(env.hash, c)
  {
    MissingOr(env.hash, known, fetched, c);
    var i :| 0 <= i < |known| && known[i] == c;
    var k :| 0 <= k < |fetched| && DigestOf(env.hash, fetched[k]) == DigestOf(env.hash, c);
    assert Contains(env.hash, known, fetched[k]) && fetched[k] in fetched;
    assert StoredAfter(env.hash, Rewrite(env), known, fetched)[k] == fetched[k];
  }

  lemma PollAllowed(env: M.Env, src: Sources, s: State, p: Provider, fetched: seq<Config>, visits: seq<seq<M.Entity>>)
    requires TemplatesAllowed(src, s) && forall c :: c in fetched ==> src.may(p, c)
    ensures TemplatesAllowed(src, Step(env, s, Poll(p, Ok(fetched), visits)))
  {
    var stored := StoredAfter(env.hash, Rewrite(env), KnownTo(s, p), fetched);
    forall c | c in stored && c.IsTemplate()
      ensures src.may(p, c)
    {
      var k :| 0 <= k < |stored| && stored[k] == c;
      assert fetched[k] in fetched && c == fetched[k];
    }
  }

  /** A cached template that the poll did not remove is still held. */
  lemma CachedStillHeld(env: M.Env, src: Sources, s: State, p: Provider, fetched: seq<Config>, stored: map<Provider, seq<Config>>, d: Digest)
    requires TemplatesAllowed(src, s) && KindsApart(env, src) && forall c :: c in fetched ==> src.may(p, c)
    requires stored == s.stored[p := StoredAfter(env.hash, Rewrite(env), KnownTo(s, p), fetched)]
    requires HeldTemplate(env, s.stored, d) && d !in M.TemplateDigests(env.hash, Missing(env.hash, KnownTo(s, p), fetched))
    ensures HeldTemplate(env, stored, d)
  {
    var q, c :| q in s.stored && c in s.stored[q] && c.IsTemplate() && DigestOf(env.hash, c) == d;
    if q == p {
      TemplateHeldAfter(env, src, p, KnownTo(s, p), fetched, c);
      var f :| f in stored[p] && f.IsTemplate() && DigestOf(env.hash, f) == d;
      assert p in stored;
    } else {
      assert q in stored && c in stored[q];
    }
  }

  lemma PollCached(env: M.Env, src: Sources, s: State, p: Provider, fetched: seq<Config>, visits: seq<seq<M.Entity>>)
    requires CachedHeld(env, s) && TemplatesAllowed(src, s)
    requires KindsApart(env, src) && AllCachedSame(env, src) && forall c :: c in fetched ==> src.may(p, c)
    ensures CachedHeld(env, Step(env, s, Poll(p, Ok(fetched), visits)))
  {
    var known, s' := KnownTo(s, p), Step(env, s, Poll(p, Ok(fetched), visits));
    var diff := DiffOf(env.hash, known, Ok(fetched));
    var removed := M.Removed(env, s.auto, diff.removed);
    RemovedTemplatesCache(env, removed, diff.removed);
    AddAllCache(env, M.RemovedTemplates(env, removed, diff.removed), diff.added, visits);
    forall d | d in s'.auto.cache.digestToTemplate
      ensures HeldTemplate(env, s'.stored, d)
    {
      if d in M.RemovedTemplates(env, removed, diff.removed).cache.digestToTemplate {
        CachedStillHeld(env, src, s, p, fetched, s'.stored, d);
      } else {
        var c :| c in diff.added && c.IsTemplate() && DigestOf(env.hash, M.WithMetrics(env, c)) == d;
        HeldNew(env, known, fetched, c);
        assert p in s'.stored && c in s'.stored[p];
      }
    }
  }

  lemma ServicesSameCache(env: M.Env, s: State, op: Op)
    requires !op.Poll?
    ensures Step(env, s, op).auto.cache == s.auto.cache && Step(env, s, op).stored == s.stored
  {
    if op.AddService? {
      T.CacheAfter(env, s.auto, M.AddService(op.svc));
    }
  }

  lemma {:induction false} RunCached(env: M.Env, src: Sources, ops: seq<Op>)
    requires RunOf(env, src, ops) && KindsApart(env, src) && AllCachedSame(env, src)
    ensures CachedHeld(env, Run(env, ops)) && TemplatesAllowed(src, Run(env, ops))
  {
    if ops != [] {
      var front, op := ops[..|ops| - 1], ops[|ops| - 1];
      RunCached(env, src, front);
      if op.Poll? && op.fetched.Ok? {
        PollAllowed(env, src, Run(env, front), op.p, op.fetched.value, op.visits);
        PollCached(env, src, Run(env, front), op.p, op.fetched.value, op.visits);
      } else if !op.Poll? {
        ServicesSameCache(env, Run(env, front), op);
      }
    }
  }

  /** In every run the two digest maps of the cache have the same keys. */
  lemma {:induction false} RunCacheKeys(env: M.Env, ops: seq<Op>)
    ensures Run(env, ops).auto.cache.digestToADId.Keys == Run(env, ops).auto.cache.digestToTemplate.Keys
  {
    if ops != [] {
      var s, op := Run(env, ops[..|ops| - 1]), ops[|ops| - 1];
      RunCacheKeys(env, ops[..|ops| - 1]);
      match op
      case Poll(p, Err, _) =>
      case Poll(p, Ok(fetched), visits) =>
        var d := DiffOf(env.hash, KnownTo(s, p), Ok(fetched));
        RemovedTemplatesCache(env, M.Removed(env, s.auto, d.removed), d.removed);
        AddAllCache(env, Emptied(env, s.auto, d.removed), d.added, visits);
      case _ => ServicesSameCache(env, s, op);
    }
  }

  /**
   After any run: when a template comes and goes, it leaves the cache exactly when its metrics do not change its
   digest; otherwise everything filed under it stays loaded, but for what was also filed under the digest without metrics.
   */
  lemma TemplateUnloadedIff(env: M.Env, ops: seq<Op>, p: Provider, c: Config, visits: seq<M.Entity>)
    requires KnownTo(Run(env, ops), p) == [] && c.IsTemplate()
    ensures var a, s := M.NewConfig(env, Run(env, ops).auto, c, visits), Run(env, FetchedOnce(ops, p, c, visits));
            var raw, d := DigestOf(env.hash, c), DigestOf(env.hash, M.WithMetrics(env, c));
            && (d !in s.auto.cache.digestToTemplate <==> SameWhenCached(env, c))
            && forall x :: x in a.loadedConfigs && x in Digests(env.hash, M.ListOf(a.templateToConfigs, d)) ==>
                 (x in s.auto.loadedConfigs <==>
                    !SameWhenCached(env, c) && x != raw && x !in Digests(env.hash, M.ListOf(a.templateToConfigs, raw)))
  {
    RunCacheKeys(env, ops);
    FetchedOnceIs(env, ops, p, c, visits);
    NewConfigCache(env, Run(env, ops).auto, c, visits);
    M.DigestsOne(env.hash, c);
  }

  /** A template whose metrics change its digest stays cached, though no poller holds anything any more. */
  lemma TemplateStays(env: M.Env, src: Sources, p: Provider, c: Config) returns (s: State)
    requires src.may(p, c) && !SameWhenCached(env, c)
    ensures Reached(env, src, s) && s.stored == map[p := []] && DigestOf(env.hash, M.WithMetrics(env, c)) in s.auto.cache.digestToTemplate
  {
    ReachedFirst(env, src);
    var s1, visits := FetchOne(env, src, INITIAL, p, c);
    NewConfigCache(env, INITIAL.auto, c, visits);
    s := DropOne(env, src, s1, p, c);
  }

  /** So does a template that is replaced by a configuration that is not one and has its digest, when that goes too. */
  lemma KindSwapped(env: M.Env, src: Sources, p: Provider, c: Config, f: Config) returns (s: State)
    requires src.may(p, c) && src.may(p, f) && c.IsTemplate() && !f.IsTemplate() && DigestOf(env.hash, c) == DigestOf(env.hash, f)
    ensures Reached(env, src, s) && s.stored == map[p := []] && DigestOf(env.hash, M.WithMetrics(env, c)) in s.auto.cache.digestToTemplate
  {
    ReachedFirst(env, src);
    var s1, visits := FetchOne(env, src, INITIAL, p, c);
    NewConfigCache(env, INITIAL.auto, c, visits);
    var s2 := SwapSame(env, src, s1, p, c, f);
    s := DropOne(env, src, s2, p, f);
  }

  /**
   In every run of polls and services, every cached template is held by some poller, exactly when JMX metrics
   change the digest of no template, and no provider gives a template and another configuration one digest.
   */
  lemma TemplateRemovedIff(env: M.Env, src: Sources)
    ensures (forall s :: Reached(env, src, s) ==> CachedHeld(env, s)) <==> AllCachedSame(env, src) && KindsApart(env, src)
  {
    if AllCachedSame(env, src) && KindsApart(env, src) {
      forall s | Reached(env, src, s)
        ensures CachedHeld(env, s)
      {
        var ops :| RunOf(env, src, ops) && Run(env, ops) == s;
        RunCached(env, src, ops);
      }
    } else if p, c :| src.may(p, c) && !SameWhenCached(env, c) {
      var s := TemplateStays(env, src, p, c);
      assert !HeldTemplate(env, s.stored, DigestOf(env.hash, M.WithMetrics(env, c)));
    } else {
      var p, c, f :| src.may(p, c) && src.may(p, f) && c.IsTemplate() && !f.IsTemplate() && DigestOf(env.hash, c) == DigestOf(env.hash, f);
      var s := KindSwapped(env, src, p, c, f);
      assert !HeldTemplate(env, s.stored, DigestOf(env.hash, M.WithMetrics(env, c)));
    }
  }
}
