/** One turn of the polling loop of pkg/autodiscovery/config_poller.go, proved equal to a step of ProviderRuns. */
module Polling {
  import opened Integration
  import opened Wrappers
  import CP = ConfigPoller
  import AC = AutoConfig
  import M = AutoConfigRuns
  import P = ProviderRuns

  method Copies(held: seq<CP.Held>) returns (configs: seq<Config>)
    ensures configs == CP.ValuesOf(held)
  {
    configs := [];
    for n := 0 to |held|
      invariant |configs| == n && forall i :: 0 <= i < n ==> configs[i] == CP.ValueOf(held[i])
    {
      configs := configs + [CP.ValueOf(held[n])];
    }
  }

  method Poll(pd: CP.Poller, ac: AC.AutoConfig, fetched: Result<seq<Config>>) returns (ghost visits: seq<seq<M.Entity>>)
    requires ac.Valid() && pd.hash == ac.env.hash
    modifies pd, ac, ac.templateCache
    ensures var diff := CP.DiffOf(pd.hash, old(pd.Values()), fetched);
            && ac.View() == P.Polled(ac.env, old(ac.View()), diff, visits)
            && P.AllVisits(ac.env, P.Emptied(ac.env, old(ac.View()), diff.removed), diff.added, visits)
    ensures pd.Values() ==
            if fetched.Ok? then CP.StoredAfter(pd.hash, P.Rewrite(ac.env), old(pd.Values()), fetched.value) else old(pd.Values())
    ensures old(ac.Announced()) ==> ac.Announced()
  {
    ghost var known, before := pd.Values(), ac.View();
    var newConf, removed := Collected(pd, fetched);
    assert ac.View() == before;
    RemoveOld(ac, removed, before);
    ghost var base := ac.View();
    visits := [];
    if fetched.Ok? {
      visits := AddNew(pd, ac, newConf, known, fetched.value);
      AllProcessed(ac.env, base, fetched.value, known, ac.View(), pd.Values(), visits);
    }
  }

  /** What is new, still sharing its instances with the list, and what is gone. */
  method Collected(pd: CP.Poller, fetched: Result<seq<Config>>) returns (newConf: seq<CP.Held>, removed: seq<Config>)
    modifies pd
    ensures removed == CP.DiffOf(pd.hash, old(pd.Values()), fetched).removed
    ensures fetched.Err? ==> pd.configs == old(pd.configs)
    ensures fetched.Ok? ==>
              && CP.Apart(pd.configs) && (forall i :: 0 <= i < |pd.configs| ==> fresh(pd.configs[i].instances))
              && pd.Values() == fetched.value
              && newConf == CP.PickedAt(pd.configs, CP.Positions(pd.hash, fetched.value, old(pd.Values())))
  {
    var removedConf;
    newConf, removedConf := pd.Collect(fetched);
    removed := Copies(removedConf);
  }

  method RemoveOld(ac: AC.AutoConfig, removed: seq<Config>, ghost before: M.State)
    requires ac.Valid() && ac.View() == before
    modifies ac, ac.templateCache
    ensures ac.View() == P.Emptied(ac.env, before, removed) && (old(ac.Announced()) ==> ac.Announced())
  {
    ac.ProcessRemovedConfigs(removed);
    ac.RemoveConfigTemplates(removed);
  }

  /** The list after processing the configurations at the given positions. */
  ghost function RewrittenAt(env: M.Env, fetched: seq<Config>, at: seq<nat>): (r: seq<Config>)
    requires forall j :: 0 <= j < |at| ==> at[j] < |fetched|
    ensures |r| == |fetched|
    ensures forall i :: 0 <= i < |fetched| ==> r[i] == if i in at then M.Kept(env, fetched[i]) else fetched[i]
  {
    if at == [] then fetched
    else
      var n := |at| - 1;
      assert at == at[..n] + [at[n]];
      RewrittenAt(env, fetched, at[..n])[at[n] := M.Kept(env, fetched[at[n]])]
  }

  lemma RewrittenIsStored(env: M.Env, known: seq<Config>, fetched: seq<Config>)
    ensures RewrittenAt(env, fetched, CP.Positions(env.hash, fetched, known)) == CP.StoredAfter(env.hash, P.Rewrite(env), known, fetched)
  {
    CP.PositionsOfMissing(env.hash, fetched, known);
    var at := CP.Positions(env.hash, fetched, known);
    var r, stored := RewrittenAt(env, fetched, at), CP.StoredAfter(env.hash, P.Rewrite(env), known, fetched);
    forall i | 0 <= i < |fetched|
      ensures r[i] == stored[i]
    {
      assert i in at <==> !CP.Contains(env.hash, known, fetched[i]);
    }
  }

  lemma NextPosition(env: M.Env, fetched: seq<Config>, at: seq<nat>, n: nat)
    requires n < |at| && forall j :: 0 <= j < |at| ==> at[j] < |fetched|
    requires forall i, j :: 0 <= i < j < |at| ==> at[i] < at[j]
    ensures RewrittenAt(env, fetched, at[..n])[at[n]] == fetched[at[n]]
    ensures RewrittenAt(env, fetched, at[..n + 1]) == RewrittenAt(env, fetched, at[..n])[at[n] := M.Kept(env, fetched[at[n]])]
  {
    assert at[..n + 1][..n] == at[..n];
  }

  /** Processing one new configuration changes the entry it shares its instances with, and no other. */
  method AddHeld(pd: CP.Poller, ac: AC.AutoConfig, held: CP.Held, ghost i: nat, ghost values: seq<Config>)
    returns (ghost visits: seq<M.Entity>)
    requires ac.Valid() && i < |pd.configs| && pd.configs[i] == held && CP.Apart(pd.configs) && pd.Values() == values
    modifies ac, ac.templateCache, held.instances
    ensures values[i].IsTemplate() ==> M.Visits(old(ac.View()), values[i].adIdentifiers, visits)
    ensures ac.View() == M.NewConfig(ac.env, old(ac.View()), values[i], visits)
    ensures pd.Values() == values[i := M.Kept(ac.env, values[i])] && (old(ac.Announced()) ==> ac.Announced())
  {
    assert CP.ValueOf(held) == values[i];
    assert forall j :: 0 <= j < |pd.configs| ==> CP.ValueOf(pd.configs[j]) == values[j];
    var configs;
    configs, visits := ac.AddConfig(held);
    assert forall j :: 0 <= j < |pd.configs| && j != i ==> CP.ValueOf(pd.configs[j]) == values[j];
  }

  /** The first n new configurations are processed: what is loaded, and what the list holds. */
  ghost predicate Processed(env: M.Env, base: M.State, fetched: seq<Config>, known: seq<Config>, n: nat,
                            now: M.State, values: seq<Config>, visits: seq<seq<M.Entity>>)
  {
    var added, at := CP.Missing(env.hash, fetched, known), CP.Positions(env.hash, fetched, known);
    && n <= |added| == |at| && P.AllVisits(env, base, added[..n], visits)
    && now == P.AddAll(env, base, added[..n], visits)
    && values == RewrittenAt(env, fetched, at[..n])
  }

  lemma NextProcessed(env: M.Env, base: M.State, fetched: seq<Config>, known: seq<Config>, n: nat,
                      now: M.State, values: seq<Config>, visits: seq<seq<M.Entity>>)
    requires Processed(env, base, fetched, known, n, now, values, visits)
    ensures var at := CP.Positions(env.hash, fetched, known);
            n < |at| ==>
              && values[at[n]] == fetched[at[n]]
              && forall more :: (fetched[at[n]].IsTemplate() ==> M.Visits(now, fetched[at[n]].adIdentifiers, more)) ==>
                   Processed(env, base, fetched, known, n + 1, M.NewConfig(env, now, fetched[at[n]], more),
                             values[at[n] := M.Kept(env, fetched[at[n]])], visits + [more])
  {
    var added, at := CP.Missing(env.hash, fetched, known), CP.Positions(env.hash, fetched, known);
    CP.PositionsOfMissing(env.hash, fetched, known);
    if n < |at| {
      NextPosition(env, fetched, at, n);
      forall more | fetched[at[n]].IsTemplate() ==> M.Visits(now, fetched[at[n]].adIdentifiers, more)
        ensures Processed(env, base, fetched, known, n + 1, M.NewConfig(env, now, fetched[at[n]], more),
                          values[at[n] := M.Kept(env, fetched[at[n]])], visits + [more])
      {
        OneMore(env, base, added, n, visits, more);
        P.OneMoreVisit(env, base, added, n, visits, more);
      }
    }
  }

  method AddNew(pd: CP.Poller, ac: AC.AutoConfig, newConf: seq<CP.Held>, ghost known: seq<Config>, ghost fetched: seq<Config>)
    returns (ghost visits: seq<seq<M.Entity>>)
    requires ac.Valid() && pd.hash == ac.env.hash
    requires CP.Apart(pd.configs) && pd.Values() == fetched
    requires newConf == CP.PickedAt(pd.configs, CP.Positions(pd.hash, fetched, known))
    modifies ac, ac.templateCache, CP.Arrays(newConf)
    ensures Processed(ac.env, old(ac.View()), fetched, known, |newConf|, ac.View(), pd.Values(), visits)
    ensures old(ac.Announced()) ==> ac.Announced()
  {
    visits := [];
    ghost var base := ac.View();
    CP.PositionsOfMissing(pd.hash, fetched, known);
    for n := 0 to |newConf|
      invariant ac.Valid() && Processed(ac.env, base, fetched, known, n, ac.View(), pd.Values(), visits)
      invariant old(ac.Announced()) ==> ac.Announced()
    {
      NextProcessed(ac.env, base, fetched, known, n, ac.View(), pd.Values(), visits);
      ghost var more := AddHeld(pd, ac, newConf[n], CP.Positions(pd.hash, fetched, known)[n], pd.Values());
      visits := visits + [more];
    }
  }

  lemma AllProcessed(env: M.Env, base: M.State, fetched: seq<Config>, known: seq<Config>,
                     now: M.State, values: seq<Config>, visits: seq<seq<M.Entity>>)
    requires Processed(env, base, fetched, known, |CP.Positions(env.hash, fetched, known)|, now, values, visits)
    ensures var added := CP.Missing(env.hash, fetched, known);
            now == P.AddAll(env, base, added, visits) && P.AllVisits(env, base, added, visits)
    ensures values == CP.StoredAfter(env.hash, P.Rewrite(env), known, fetched)
  {
    var added, at := CP.Missing(env.hash, fetched, known), CP.Positions(env.hash, fetched, known);
    assert added[..|at|] == added && at[..|at|] == at;
    RewrittenIsStored(env, known, fetched);
  }

  lemma OneMore(env: M.Env, a: M.State, added: seq<Config>, n: nat, visits: seq<seq<M.Entity>>, more: seq<M.Entity>)
    requires n < |added| && |visits| == n
    ensures P.AddAll(env, a, added[..n + 1], visits + [more]) ==
            M.NewConfig(env, P.AddAll(env, a, added[..n], visits), added[n], more)
  {
    assert added[..n + 1][..n] == added[..n];
    P.SameVisits(env, a, added[..n], visits, more);
  }
}
