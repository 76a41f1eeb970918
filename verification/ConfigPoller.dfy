/** pkg/autodiscovery/config_poller.go: the diff between two collections of a provider's configurations. */
module ConfigPoller {
  import opened Integration
  import opened Wrappers

  /** `Config.Equal` compares digests. */
  predicate Contains(hash: string -> Digest, configs: seq<Config>, c: Config) {
    exists i :: 0 <= i < |configs| && DigestOf(hash, configs[i]) == DigestOf(hash, c)
  }

  function Missing(hash: string -> Digest, configs: seq<Config>, from: seq<Config>): seq<Config> {
    if configs == [] then []
    else
      var n := |configs| - 1;
      Missing(hash, configs[..n], from) + if Contains(hash, from, configs[n]) then [] else [configs[n]]
  }

  function Digests(hash: string -> Digest, configs: seq<Config>): set<Digest> {
    set i | 0 <= i < |configs| :: DigestOf(hash, configs[i])
  }

  lemma {:induction false} MissingDigests(hash: string -> Digest, configs: seq<Config>, from: seq<Config>)
    ensures Digests(hash, Missing(hash, configs, from)) == Digests(hash, configs) - Digests(hash, from)
  {
    if configs != [] {
      var n := |configs| - 1;
      MissingDigests(hash, configs[..n], from);
      DigestsAppend(hash, configs[..n], configs[n]);
      assert configs == configs[..n] + [configs[n]];
      DigestsAppend(hash, Missing(hash, configs[..n], from), configs[n]);
      assert Contains(hash, from, configs[n]) <==> DigestOf(hash, configs[n]) in Digests(hash, from);
      assert Missing(hash, configs[..n], from) + [] == Missing(hash, configs[..n], from);
    }
  }

  lemma DigestsAppend(hash: string -> Digest, configs: seq<Config>, c: Config)
    ensures Digests(hash, configs + [c]) == Digests(hash, configs) + {DigestOf(hash, c)}
  {
    var more := configs + [c];
    assert more[|configs|] == c && forall i :: 0 <= i < |configs| ==> more[i] == configs[i];
  }

  datatype Diff = Diff(added: seq<Config>, removed: seq<Config>)

  /** A failed collection reports no change. */
  function DiffOf(hash: string -> Digest, known: seq<Config>, fetched: Result<seq<Config>>): Diff {
    match fetched
    case Ok(configs) => Diff(Missing(hash, configs, known), Missing(hash, known, configs))
    case Err => Diff([], [])
  }

  /** Applying a diff to any set of digests. */
  function Applied(hash: string -> Digest, s: set<Digest>, d: Diff): set<Digest> {
    s - Digests(hash, d.removed) + Digests(hash, d.added)
  }

  /** One diff takes the old configurations to the fetched ones, and never names one of them on both sides. */
  lemma DiffIsExact(hash: string -> Digest, known: seq<Config>, fetched: seq<Config>)
    ensures var d := DiffOf(hash, known, Ok(fetched));
            && Applied(hash, Digests(hash, known), d) == Digests(hash, fetched)
            && Digests(hash, d.added) !! Digests(hash, d.removed)
            && Digests(hash, d.added) !! Digests(hash, known) && Digests(hash, d.removed) <= Digests(hash, known)
  {
    MissingDigests(hash, fetched, known);
    MissingDigests(hash, known, fetched);
  }

  /** Where the configurations that `from` lacks stand. */
  function Positions(hash: string -> Digest, configs: seq<Config>, from: seq<Config>): (at: seq<nat>)
    ensures forall j :: 0 <= j < |at| ==> at[j] < |configs| && !Contains(hash, from, configs[at[j]])
    ensures forall i, j :: 0 <= i < j < |at| ==> at[i] < at[j]
  {
    if configs == [] then []
    else
      var n := |configs| - 1;
      Positions(hash, configs[..n], from) + if Contains(hash, from, configs[n]) then [] else [n]
  }

  lemma {:induction false} PositionsOfMissing(hash: string -> Digest, configs: seq<Config>, from: seq<Config>)
    ensures var at, missing := Positions(hash, configs, from), Missing(hash, configs, from);
            |at| == |missing| && forall j :: 0 <= j < |at| ==> missing[j] == configs[at[j]]
    ensures forall i :: 0 <= i < |configs| && !Contains(hash, from, configs[i]) ==> i in Positions(hash, configs, from)
  {
    if configs != [] {
      var n := |configs| - 1;
      PositionsOfMissing(hash, configs[..n], from);
      var before, at := Positions(hash, configs[..n], from), Positions(hash, configs, from);
      forall i | 0 <= i < |configs| && !Contains(hash, from, configs[i])
        ensures i in at
      {
        if i < n {
          assert configs[..n][i] == configs[i] && i in before;
        } else {
          assert at[|before|] == n;
        }
      }
    }
  }

  // ----- runs of a provider -----

  /**
   What a poller holds once its new configurations are processed. `rewrite` says what processing
   leaves of a new configuration, whose instances the poller and the loaded configuration share.
   */
  function StoredAfter(hash: string -> Digest, rewrite: Config -> Config, known: seq<Config>, fetched: seq<Config>): seq<Config> {
    seq(|fetched|, i requires 0 <= i < |fetched| =>
      if Contains(hash, known, fetched[i]) then fetched[i] else rewrite(fetched[i]))
  }

  /** What the poller holds after a run of collections, some of which fail. */
  function Known(hash: string -> Digest, rewrite: Config -> Config, fetches: seq<Result<seq<Config>>>): seq<Config> {
    if fetches == [] then []
    else
      var before, last := Known(hash, rewrite, fetches[..|fetches| - 1]), fetches[|fetches| - 1];
      if last.Ok? then StoredAfter(hash, rewrite, before, last.value) else before
  }

  /** The provider's configurations after the run. */
  function Current(fetches: seq<Result<seq<Config>>>): seq<Config> {
    if fetches == [] then []
    else
      var last := fetches[|fetches| - 1];
      if last.Ok? then last.value else Current(fetches[..|fetches| - 1])
  }

  /** What a listener has that applies every reported diff to nothing. */
  function Replayed(hash: string -> Digest, rewrite: Config -> Config, fetches: seq<Result<seq<Config>>>): set<Digest> {
    if fetches == [] then {}
    else
      var before := fetches[..|fetches| - 1];
      Applied(hash, Replayed(hash, rewrite, before), DiffOf(hash, Known(hash, rewrite, before), fetches[|fetches| - 1]))
  }

  /** The provider returns nothing but configurations that `may` allows. */
  ghost predicate Within(may: Config -> bool, fetches: seq<Result<seq<Config>>>) {
    forall i, j :: 0 <= i < |fetches| && fetches[i].Ok? && 0 <= j < |fetches[i].value| ==> may(fetches[i].value[j])
  }

  ghost predicate KeepsDigest(hash: string -> Digest, rewrite: Config -> Config, may: Config -> bool) {
    forall c :: may(c) ==> DigestOf(hash, rewrite(c)) == DigestOf(hash, c)
  }

  lemma StoredDigests(hash: string -> Digest, rewrite: Config -> Config, known: seq<Config>, fetched: seq<Config>)
    requires forall i :: 0 <= i < |fetched| ==> DigestOf(hash, rewrite(fetched[i])) == DigestOf(hash, fetched[i])
    ensures Digests(hash, StoredAfter(hash, rewrite, known, fetched)) == Digests(hash, fetched)
  {
    var stored := StoredAfter(hash, rewrite, known, fetched);
    assert forall i :: 0 <= i < |fetched| ==> DigestOf(hash, stored[i]) == DigestOf(hash, fetched[i]);
  }

  lemma {:induction false} ReplayIsCurrent(hash: string -> Digest, rewrite: Config -> Config, may: Config -> bool, fetches: seq<Result<seq<Config>>>)
    requires Within(may, fetches) && KeepsDigest(hash, rewrite, may)
    ensures Replayed(hash, rewrite, fetches) == Digests(hash, Current(fetches)) == Digests(hash, Known(hash, rewrite, fetches))
  {
    if fetches != [] {
      var n := |fetches| - 1;
      var before, last := fetches[..n], fetches[n];
      ReplayIsCurrent(hash, rewrite, may, before);
      if last.Ok? {
        DiffIsExact(hash, Known(hash, rewrite, before), last.value);
        StoredDigests(hash, rewrite, Known(hash, rewrite, before), last.value);
      }
    }
  }

  lemma FetchedOne(hash: string -> Digest, rewrite: Config -> Config, c: Config)
    ensures Known(hash, rewrite, [Ok([c])]) == [rewrite(c)]
    ensures Replayed(hash, rewrite, [Ok([c])]) == {DigestOf(hash, c)}
  {
    var one: seq<Result<seq<Config>>> := [Ok([c])];
    assert one[..0] == [] && one[0] == Ok([c]);
    OneMissing(hash, c);
    assert Known(hash, rewrite, one[..0]) == [] && StoredAfter(hash, rewrite, [], [c]) == [rewrite(c)];
  }

  /** A configuration fetched once and then gone, as a listener sees it. */
  lemma ReplayedOnce(hash: string -> Digest, rewrite: Config -> Config, c: Config)
    ensures Replayed(hash, rewrite, [Ok([c]), Ok([])]) == {DigestOf(hash, c)} - {DigestOf(hash, rewrite(c))}
    ensures Current([Ok([c]), Ok([])]) == []
  {
    var fetches: seq<Result<seq<Config>>> := [Ok([c]), Ok([])];
    assert fetches[..1] == [Ok([c])] && fetches[1] == Ok([]);
    FetchedOne(hash, rewrite, c);
    OneMissing(hash, rewrite(c));
    assert DiffOf(hash, [rewrite(c)], fetches[1]) == Diff([], [rewrite(c)]);
  }

  lemma OneMissing(hash: string -> Digest, c: Config)
    ensures Missing(hash, [c], []) == [c] && Missing(hash, [], [c]) == []
    ensures Digests(hash, [c]) == {DigestOf(hash, c)} && Digests(hash, []) == {}
  {
    assert [c][..0] == [] && [c][0] == c;
  }

  /**
   Replaying the diffs of a run rebuilds the provider's current configurations in every run, exactly
   when processing changes the digest of no configuration that the provider may return.
   */
  lemma ReplayIsCurrentIff(hash: string -> Digest, rewrite: Config -> Config, may: Config -> bool)
    ensures (forall fetches {:trigger Within(may, fetches)} :: Within(may, fetches) ==>
              Replayed(hash, rewrite, fetches) == Digests(hash, Current(fetches)))
       <==> KeepsDigest(hash, rewrite, may)
  {
    if KeepsDigest(hash, rewrite, may) {
      forall fetches | Within(may, fetches)
        ensures Replayed(hash, rewrite, fetches) == Digests(hash, Current(fetches))
      {
        ReplayIsCurrent(hash, rewrite, may, fetches);
      }
    } else {
      var c :| may(c) && DigestOf(hash, rewrite(c)) != DigestOf(hash, c);
      var fetches := [Ok([c]), Ok([])];
      assert Within(may, fetches);
      ReplayedOnce(hash, rewrite, c);
      assert DigestOf(hash, c) in Replayed(hash, rewrite, fetches);
    }
  }

  /** The digest changes when a secret is replaced; then a configuration that stays is reported removed and new at every poll. */
  lemma UnchangedButReported(hash: string -> Digest, rewrite: Config -> Config, c: Config)
    ensures var known := StoredAfter(hash, rewrite, [], [c]);
            DiffOf(hash, known, Ok([c])) ==
            if DigestOf(hash, rewrite(c)) == DigestOf(hash, c) then Diff([], []) else Diff([c], [rewrite(c)])
  {
    var r := rewrite(c);
    assert StoredAfter(hash, rewrite, [], [c]) == [r];
    OneAgainstOne(hash, c, r);
    OneAgainstOne(hash, r, c);
  }

  lemma OneAgainstOne(hash: string -> Digest, c: Config, from: Config)
    ensures Missing(hash, [c], [from]) == if DigestOf(hash, from) == DigestOf(hash, c) then [] else [c]
  {
    assert [c][..0] == [] && [from][0] == from;
    assert Contains(hash, [from], c) <==> DigestOf(hash, from) == DigestOf(hash, c);
    assert Missing(hash, [c][..0], [from]) == [];
  }

  // ----- the poller -----

  /** A configuration whose instances are an array that copies of it share. */
  datatype Held = Held(config: Config, instances: array<string>)

  function ValueOf(h: Held): Config
    reads h.instances
  {
    h.config.(instances := h.instances[..])
  }

  function Arrays(hs: seq<Held>): set<array<string>> {
    set i | 0 <= i < |hs| :: hs[i].instances
  }

  ghost function ValuesOf(hs: seq<Held>): (cs: seq<Config>)
    reads Arrays(hs)
    ensures |cs| == |hs|
  {
    seq(|hs|, i requires 0 <= i < |hs| reads Arrays(hs) => ValueOf(hs[i]))
  }

  ghost predicate Apart(hs: seq<Held>) {
    forall i, j :: 0 <= i < j < |hs| ==> hs[i].instances != hs[j].instances
  }

  /** The provider hands out its configurations with instances of their own. */
  method Hold(configs: seq<Config>) returns (held: seq<Held>)
    ensures |held| == |configs| && Apart(held) && ValuesOf(held) == configs
    ensures forall i :: 0 <= i < |held| ==> fresh(held[i].instances)
  {
    held := [];
    for n := 0 to |configs|
      invariant |held| == n && Apart(held)
      invariant forall i :: 0 <= i < n ==> fresh(held[i].instances) && ValueOf(held[i]) == configs[i]
    {
      var c := configs[n];
      var instances := new string[|c.instances|](i requires 0 <= i < |c.instances| => c.instances[i]);
      assert instances[..] == c.instances;
      held := held + [Held(c, instances)];
    }
  }

  ghost function PickedAt(among: seq<Held>, at: seq<nat>): seq<Held>
    requires forall j :: 0 <= j < |at| ==> at[j] < |among|
  {
    seq(|at|, j requires 0 <= j < |at| => among[at[j]])
  }

  lemma OneMorePosition(hash: string -> Digest, configs: seq<Config>, n: nat, from: seq<Config>)
    requires n < |configs|
    ensures Positions(hash, configs[..n + 1], from) ==
            Positions(hash, configs[..n], from) + if Contains(hash, from, configs[n]) then [] else [n]
  {
    assert configs[..n + 1][..n] == configs[..n];
  }

  lemma PickedMore(among: seq<Held>, at: seq<nat>, n: nat)
    requires n < |among| && forall j :: 0 <= j < |at| ==> at[j] < |among|
    ensures forall j :: 0 <= j < |at + [n]| ==> (at + [n])[j] < |among|
    ensures PickedAt(among, at + [n]) == PickedAt(among, at) + [among[n]]
  {}

  lemma PickedValues(hash: string -> Digest, among: seq<Held>, known: seq<Config>)
    ensures ValuesOf(PickedAt(among, Positions(hash, ValuesOf(among), known))) == Missing(hash, ValuesOf(among), known)
  {
    PositionsOfMissing(hash, ValuesOf(among), known);
  }

  class Poller {
    const hash: string -> Digest
    var configs: seq<Held>

    ghost function Values(): seq<Config>
      reads this, Arrays(configs)
    {
      ValuesOf(configs)
    }

    constructor (hash: string -> Digest)
      ensures this.hash == hash && Values() == []
    {
      this.hash := hash;
      configs := [];
    }

    method ContainsConfig(c: Config) returns (found: bool)
      ensures found == Contains(hash, Values(), c)
    {
      for n := 0 to |configs|
        invariant forall i :: 0 <= i < n ==> DigestOf(hash, Values()[i]) != DigestOf(hash, c)
      {
        if DigestOf(hash, ValueOf(configs[n])) == DigestOf(hash, c) {
          assert Values()[n] == ValueOf(configs[n]);
          return true;
        }
      }
      return false;
    }

    /** The configurations of `among` that this poller lacks. */
    method Lacking(among: seq<Held>, ghost values: seq<Config>, ghost known: seq<Config>) returns (lacking: seq<Held>)
      requires ValuesOf(among) == values && Values() == known
      ensures ValuesOf(among) == values && Values() == known
      ensures lacking == PickedAt(among, Positions(hash, values, known))
    {
      lacking := [];
      ghost var at: seq<nat> := [];
      for n := 0 to |among|
        invariant Values() == known && ValuesOf(among) == values
        invariant at == Positions(hash, values[..n], known)
        invariant lacking == PickedAt(among, at)
      {
        OneMorePosition(hash, values, n, known);
        assert values[n] == ValueOf(among[n]) && at + [] == at;
        var found := ContainsConfig(ValueOf(among[n]));
        assert forall i :: 0 <= i < |configs| ==> Values()[i] == known[i];
        assert found == Contains(hash, known, values[n]);
        if !found {
          PickedMore(among, at, n);
          lacking := lacking + [among[n]];
          at := at + [n];
        }
      }
      assert values[..|among|] == values;
    }

    /** `fetched` is what the provider returned. What is new shares its instances with what the poller holds. */
    method Collect(fetched: Result<seq<Config>>) returns (newConf: seq<Held>, removedConf: seq<Held>)
      modifies this
      ensures fetched.Err? ==> configs == old(configs) && newConf == [] && removedConf == []
      ensures fetched.Ok? ==>
                && Apart(configs) && (forall i :: 0 <= i < |configs| ==> fresh(configs[i].instances))
                && Values() == fetched.value
                && newConf == PickedAt(configs, Positions(hash, fetched.value, old(Values())))
      ensures Diff(ValuesOf(newConf), ValuesOf(removedConf)) == DiffOf(hash, old(Values()), fetched)
    {
      newConf, removedConf := [], [];
      if fetched.Err? {
        return;
      }
      var before := configs;
      var held := Hold(fetched.value);
      ghost var known := old(Values());
      assert forall i :: 0 <= i < |before| ==> Values()[i] == known[i];
      newConf := Lacking(held, fetched.value, known);
      configs := held;
      removedConf := Lacking(before, known, fetched.value);
      PickedValues(hash, held, known);
      PickedValues(hash, before, fetched.value);
    }
  }
}
