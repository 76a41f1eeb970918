/** pkg/autodiscovery/templatecache.go: three maps that index the stored templates by digest and by AD identifier. */
module TemplateCache {
  import opened Integration
  import opened Wrappers

  type Index = map<AdId, seq<Digest>>

  datatype State = State(
    adIDToDigests: Index,
    digestToADId: map<Digest, seq<AdId>>,
    digestToTemplate: map<Digest, Config>)

  const INITIAL := State(map[], map[], map[])

  function ListOf(index: Index, id: AdId): seq<Digest> {
    if id in index then index[id] else []
  }

  // ----- list operations -----

  function Appended(index: Index, ids: seq<AdId>, d: Digest): Index {
    if ids == [] then index
    else
      var n := |ids| - 1;
      var before := Appended(index, ids[..n], d);
      before[ids[n] := ListOf(before, ids[n]) + [d]]
  }

  function RemoveFirst(list: seq<Digest>, d: Digest): seq<Digest> {
    if list == [] then [] else if list[0] == d then list[1..] else [list[0]] + RemoveFirst(list[1..], d)
  }

  /** Removes one occurrence per identifier; a list without `d` is left alone, a missing one stays missing. */
  function Spliced(index: Index, ids: seq<AdId>, d: Digest): Index {
    if ids == [] then index
    else
      var n := |ids| - 1;
      var before := Spliced(index, ids[..n], d);
      if d in ListOf(before, ids[n]) then before[ids[n] := RemoveFirst(before[ids[n]], d)] else before
  }

  function Repeat(d: Digest, n: nat): seq<Digest> {
    seq(n, _ => d)
  }

  lemma CountLast(ids: seq<AdId>, id: AdId)
    requires ids != []
    ensures multiset(ids)[id] == multiset(ids[..|ids| - 1])[id] + if ids[|ids| - 1] == id then 1 else 0
  {
    assert ids == ids[..|ids| - 1] + [ids[|ids| - 1]];
  }

  /** Every list gains one `d` at the end per occurrence of its identifier. */
  lemma {:induction false} AppendedLists(index: Index, ids: seq<AdId>, d: Digest, id: AdId)
    ensures ListOf(Appended(index, ids, d), id) == ListOf(index, id) + Repeat(d, multiset(ids)[id])
  {
    if ids == [] {
      assert multiset(ids)[id] == 0;
    } else {
      AppendedLists(index, ids[..|ids| - 1], d, id);
      CountLast(ids, id);
      assert Repeat(d, multiset(ids[..|ids| - 1])[id]) + [d] == Repeat(d, multiset(ids[..|ids| - 1])[id] + 1);
    }
  }

  lemma {:induction false} RemoveFirstCounts(list: seq<Digest>, d: Digest)
    requires d in list
    ensures multiset(RemoveFirst(list, d)) == multiset(list) - multiset{d}
  {
    assert list == [list[0]] + list[1..];
    if list[0] != d {
      RemoveFirstCounts(list[1..], d);
    }
  }

  /** Each list loses as many `d` as its identifier occurs, down to none, and nothing else. */
  lemma {:induction false} SplicedCounts(index: Index, ids: seq<AdId>, d: Digest, id: AdId, e: Digest)
    ensures var had, gone := multiset(ListOf(index, id))[e], multiset(ids)[id];
            multiset(ListOf(Spliced(index, ids, d), id))[e] ==
              if e != d then had else if had <= gone then 0 else had - gone
  {
    if ids == [] {
      assert multiset(ids)[id] == 0;
    } else {
      var n := |ids| - 1;
      SplicedCounts(index, ids[..n], d, id, e);
      CountLast(ids, id);
      var before := Spliced(index, ids[..n], d);
      if d in ListOf(before, ids[n]) {
        RemoveFirstCounts(before[ids[n]], d);
      }
    }
  }

  lemma {:induction false} RemoveFirstAtEnd(list: seq<Digest>, d: Digest, n: nat)
    requires d !in list && n > 0
    ensures RemoveFirst(list + Repeat(d, n), d) == list + Repeat(d, n - 1)
  {
    var all := list + Repeat(d, n);
    if list == [] {
      assert all[1..] == Repeat(d, n - 1);
    } else {
      assert all[1..] == list[1..] + Repeat(d, n);
      RemoveFirstAtEnd(list[1..], d, n);
    }
  }

  /** Splicing out what was just appended gives the lists back; `extra` counts the occurrences still to be spliced. */
  lemma {:induction false} SplicedAppended(index: Index, list: seq<Digest>, ids: seq<AdId>, extra: nat, d: Digest, id: AdId)
    requires d !in list && ListOf(index, id) == list + Repeat(d, multiset(ids)[id] + extra)
    ensures ListOf(Spliced(index, ids, d), id) == list + Repeat(d, extra)
  {
    if ids == [] {
      assert multiset(ids)[id] == 0;
    } else {
      var n := |ids| - 1;
      CountLast(ids, id);
      if ids[n] == id {
        SplicedAppended(index, list, ids[..n], extra + 1, d, id);
        assert Repeat(d, extra + 1)[0] == d;
        RemoveFirstAtEnd(list, d, extra + 1);
      } else {
        SplicedAppended(index, list, ids[..n], extra, d, id);
      }
    }
  }

  // ----- the operations -----

  function Stored(hash: string -> Digest, s: State, tpl: Config): State {
    var d := DigestOf(hash, tpl);
    if !tpl.IsTemplate() || d in s.digestToADId then s
    else State(Appended(s.adIDToDigests, tpl.adIdentifiers, d),
               s.digestToADId[d := tpl.adIdentifiers],
               s.digestToTemplate[d := tpl])
  }

  function Deleted(hash: string -> Digest, s: State, tpl: Config): State {
    var d := DigestOf(hash, tpl);
    if d !in s.digestToADId then s
    else State(Spliced(s.adIDToDigests, tpl.adIdentifiers, d), s.digestToADId - {d}, s.digestToTemplate - {d})
  }

  function Found(s: State, id: AdId): seq<Config> {
    var list := ListOf(s.adIDToDigests, id);
    seq(|list|, i requires 0 <= i < |list| => if list[i] in s.digestToTemplate then s.digestToTemplate[list[i]] else EMPTY)
  }

  /** A lookup returns, in the order of the list, the template stored under each digest, and the empty one where none is. */
  lemma FoundInOrder(s: State, id: AdId)
    ensures |Found(s, id)| == |ListOf(s.adIDToDigests, id)|
    ensures forall i :: 0 <= i < |Found(s, id)| ==>
              var d := ListOf(s.adIDToDigests, id)[i];
              Found(s, id)[i] == if d in s.digestToTemplate then s.digestToTemplate[d]
                                 else Config("", [], "", [], "", "", "", false, "", "", false, false)
  {}

  /** Storing keeps the template itself, under its digest, unless that is taken; nothing else under a digest changes. */
  lemma StoredItself(hash: string -> Digest, s: State, tpl: Config, e: Digest)
    ensures var s', d := Stored(hash, s, tpl), DigestOf(hash, tpl);
            && (tpl.adIdentifiers != [] && d !in s.digestToADId ==> d in s'.digestToTemplate && s'.digestToTemplate[d] == tpl)
            && (e != d || d in s.digestToADId || tpl.adIdentifiers == [] ==>
                  && (e in s'.digestToTemplate <==> e in s.digestToTemplate)
                  && (e in s'.digestToTemplate ==> s'.digestToTemplate[e] == s.digestToTemplate[e]))
  {}

  /** Deleting takes out of the list of one identifier the first entry of the digest and keeps the rest in order. */
  lemma SplicedFirst(index: Index, id: AdId, d: Digest, i: nat)
    requires i < |ListOf(index, id)| && ListOf(index, id)[i] == d && d !in ListOf(index, id)[..i]
    ensures var list := ListOf(index, id); ListOf(Spliced(index, [id], d), id) == list[..i] + list[i + 1..]
  {
    RemoveFirstAt(ListOf(index, id), d, i);
    assert [id][..0] == [] && Spliced(index, [id][..0], d) == index;
    assert d in ListOf(index, id);
  }

  /** How often a stored digest names an identifier. */
  function Uses(s: State, d: Digest, id: AdId): nat {
    if d in s.digestToADId then multiset(s.digestToADId[d])[id] else 0
  }

  /** The index agrees with a scan of the stored templates. */
  ghost predicate Agrees(s: State) {
    forall id: AdId, d: Digest :: AgreesAt(s, id, d)
  }

  ghost predicate Consistent(hash: string -> Digest, s: State) {
    && s.digestToADId.Keys == s.digestToTemplate.Keys
    && forall d :: d in s.digestToTemplate ==>
         DigestOf(hash, s.digestToTemplate[d]) == d && s.digestToADId[d] == s.digestToTemplate[d].adIdentifiers
  }

  /** The list of one identifier agrees with a scan about one digest. */
  predicate AgreesAt(s: State, id: AdId, d: Digest) {
    multiset(ListOf(s.adIDToDigests, id))[d] == Uses(s, d, id)
  }

  lemma StoredKeepsAt(hash: string -> Digest, s: State, tpl: Config, id: AdId, e: Digest)
    requires AgreesAt(s, id, e)
    ensures AgreesAt(Stored(hash, s, tpl), id, e)
  {
    var d := DigestOf(hash, tpl);
    AppendedLists(s.adIDToDigests, tpl.adIdentifiers, d, id);
    RepeatCounts(d, multiset(tpl.adIdentifiers)[id], e);
  }

  lemma StoredKeeps(hash: string -> Digest, s: State, tpl: Config)
    requires Agrees(s) && Consistent(hash, s)
    ensures Agrees(Stored(hash, s, tpl)) && Consistent(hash, Stored(hash, s, tpl))
  {
    forall id: AdId, e: Digest
      ensures AgreesAt(Stored(hash, s, tpl), id, e)
    {
      assert AgreesAt(s, id, e);
      StoredKeepsAt(hash, s, tpl, id, e);
    }
  }

  lemma {:induction false} RepeatCounts(d: Digest, n: nat, e: Digest)
    ensures multiset(Repeat(d, n))[e] == if e == d then n else 0
  {
    if n > 0 {
      RepeatCounts(d, n - 1, e);
      assert Repeat(d, n) == Repeat(d, n - 1) + [d];
    }
  }

  /** Whether the identifiers of the template passed to `Del` cover the ones stored under its digest. */
  predicate Covers(hash: string -> Digest, s: State, tpl: Config) {
    var d := DigestOf(hash, tpl);
    d in s.digestToADId ==> multiset(s.digestToADId[d]) <= multiset(tpl.adIdentifiers)
  }

  lemma DeletedKeepsAtIff(hash: string -> Digest, s: State, tpl: Config, id: AdId, e: Digest)
    requires AgreesAt(s, id, e)
    ensures var d := DigestOf(hash, tpl);
            AgreesAt(Deleted(hash, s, tpl), id, e) <==>
              (e == d && d in s.digestToADId ==> Uses(s, d, id) <= multiset(tpl.adIdentifiers)[id])
  {
    SplicedCounts(s.adIDToDigests, tpl.adIdentifiers, DigestOf(hash, tpl), id, e);
  }

  /** A deletion keeps the index right exactly when the given identifiers cover the stored ones. */
  lemma DeletedKeepsIff(hash: string -> Digest, s: State, tpl: Config)
    requires Agrees(s) && Consistent(hash, s)
    ensures Consistent(hash, Deleted(hash, s, tpl))
    ensures Agrees(Deleted(hash, s, tpl)) <==> Covers(hash, s, tpl)
  {
    var d, s' := DigestOf(hash, tpl), Deleted(hash, s, tpl);
    forall id: AdId, e: Digest
      ensures AgreesAt(s', id, e) <==> (e == d && d in s.digestToADId ==> Uses(s, d, id) <= multiset(tpl.adIdentifiers)[id])
    {
      assert AgreesAt(s, id, e);
      DeletedKeepsAtIff(hash, s, tpl, id, e);
    }
    if Agrees(s') && d in s.digestToADId {
      forall id: AdId
        ensures multiset(s.digestToADId[d])[id] <= multiset(tpl.adIdentifiers)[id]
      {
        assert AgreesAt(s', id, d);
      }
    }
  }

  /** With an agreeing index a lookup returns exactly the stored templates that name the identifier. */
  lemma FoundIsScan(s: State, id: AdId, tpl: Config)
    requires Agrees(s) && s.digestToADId.Keys == s.digestToTemplate.Keys
    ensures tpl in Found(s, id) <==>
            exists d :: d in s.digestToTemplate && s.digestToTemplate[d] == tpl && id in s.digestToADId[d]
  {
    var list := ListOf(s.adIDToDigests, id);
    assert forall d :: d in list <==> multiset(list)[d] > 0;
    if tpl in Found(s, id) {
      var i :| 0 <= i < |list| && Found(s, id)[i] == tpl;
      assert list[i] in list && AgreesAt(s, id, list[i]);
    }
    if d :| d in s.digestToTemplate && s.digestToTemplate[d] == tpl && id in s.digestToADId[d] {
      assert AgreesAt(s, id, d);
      var i :| 0 <= i < |list| && list[i] == d;
      assert Found(s, id)[i] == tpl;
    }
  }

  /** Storing a new template and deleting it again restores the list of every identifier. */
  lemma StoredDeleted(hash: string -> Digest, s: State, tpl: Config, id: AdId)
    requires Agrees(s) && Consistent(hash, s) && tpl.IsTemplate() && DigestOf(hash, tpl) !in s.digestToADId
    ensures var s' := Deleted(hash, Stored(hash, s, tpl), tpl);
            && ListOf(s'.adIDToDigests, id) == ListOf(s.adIDToDigests, id)
            && s'.digestToADId == s.digestToADId && s'.digestToTemplate == s.digestToTemplate
  {
    var d, ids := DigestOf(hash, tpl), tpl.adIdentifiers;
    assert AgreesAt(s, id, d);
    AppendedLists(s.adIDToDigests, ids, d, id);
    SplicedAppended(Stored(hash, s, tpl).adIDToDigests, ListOf(s.adIDToDigests, id), ids, 0, d, id);
  }

  // ----- runs -----

  datatype Op = Set(tpl: Config) | Del(tpl: Config)

  function Run(hash: string -> Digest, ops: seq<Op>): State {
    if ops == [] then INITIAL
    else
      var s := Run(hash, ops[..|ops| - 1]);
      match ops[|ops| - 1]
      case Set(tpl) => Stored(hash, s, tpl)
      case Del(tpl) => Deleted(hash, s, tpl)
  }

  /** Among the templates of the run, equal digests mean equal identifiers. */
  ghost predicate NoClash(hash: string -> Digest, ops: seq<Op>) {
    forall i, j :: 0 <= i < |ops| && 0 <= j < |ops| && DigestOf(hash, ops[i].tpl) == DigestOf(hash, ops[j].tpl) ==>
      ops[i].tpl.adIdentifiers == ops[j].tpl.adIdentifiers
  }

  /** Over every run without such a clash the index agrees with a scan. */
  lemma {:induction false} RunAgrees(hash: string -> Digest, ops: seq<Op>)
    requires NoClash(hash, ops)
    ensures Agrees(Run(hash, ops)) && Consistent(hash, Run(hash, ops))
    ensures forall d :: d in Run(hash, ops).digestToTemplate ==> exists i :: 0 <= i < |ops| && ops[i].tpl == Run(hash, ops).digestToTemplate[d]
  {
    if ops != [] {
      var before, tpl := ops[..|ops| - 1], ops[|ops| - 1].tpl;
      RunAgrees(hash, before);
      var s, s' := Run(hash, before), Run(hash, ops);
      if ops[|ops| - 1].Set? {
        StoredKeeps(hash, s, tpl);
      } else {
        var d := DigestOf(hash, tpl);
        if d in s.digestToADId {
          var i :| 0 <= i < |before| && before[i].tpl == s.digestToTemplate[d];
          assert ops[i].tpl.adIdentifiers == tpl.adIdentifiers;
        }
        DeletedKeepsIff(hash, s, tpl);
      }
      forall d | d in s'.digestToTemplate
        ensures exists i :: 0 <= i < |ops| && ops[i].tpl == s'.digestToTemplate[d]
      {
        if d in s.digestToTemplate && s'.digestToTemplate[d] == s.digestToTemplate[d] {
          var i :| 0 <= i < |before| && before[i].tpl == s.digestToTemplate[d];
          assert ops[i].tpl == s'.digestToTemplate[d];
        } else {
          assert ops[|ops| - 1].tpl == s'.digestToTemplate[d];
        }
      }
    }
  }

  /** Two ways to cut the same names: one digest, and the second names the identifier of the first less. */
  lemma CutsClash(hash: string -> Digest, c: Config)
    ensures var a, b := c.(adIdentifiers := [AdId("a"), AdId("b")]), c.(adIdentifiers := [AdId("ab")]);
            && DigestOf(hash, a) == DigestOf(hash, b)
            && multiset(a.adIdentifiers)[AdId("a")] == 1 && multiset(a.adIdentifiers)[AdId("ab")] == 0
            && multiset(b.adIdentifiers)[AdId("a")] == 0
  {
    var a, b := c.(adIdentifiers := [AdId("a"), AdId("b")]), c.(adIdentifiers := [AdId("ab")]);
    assert Names(a.adIdentifiers) == ["a", "b"] && Names(b.adIdentifiers) == ["ab"];
    ConcatTwo("a", "b");
    ConcatTwo("ab", "");
    DigestIgnoresCuts(hash, c, a.adIdentifiers, b.adIdentifiers);
    assert a.adIdentifiers == [AdId("a")] + [AdId("b")];
    assert AdId("a") != AdId("b") && AdId("a") != AdId("ab");
  }

  /** Identifiers cut differently do clash: a deleted template then stays in the index, whatever the hash. */
  lemma ClashLeavesStaleEntry(hash: string -> Digest, c: Config)
    ensures var a, b := c.(adIdentifiers := [AdId("a"), AdId("b")]), c.(adIdentifiers := [AdId("ab")]);
            var s := Run(hash, [Set(a), Del(b)]);
            s.digestToTemplate == map[] && Found(s, AdId("a")) == [EMPTY]
  {
    var a, b := c.(adIdentifiers := [AdId("a"), AdId("b")]), c.(adIdentifiers := [AdId("ab")]);
    CutsClash(hash, c);
    var d := DigestOf(hash, a);
    var ops := [Set(a), Del(b)];
    assert ops[..1] == [Set(a)] && ops[..1][..0] == [];
    var s1 := Stored(hash, INITIAL, a);
    assert Run(hash, ops[..1]) == s1;
    var ids := a.adIdentifiers;
    AppendedLists(map[], ids, d, AdId("a"));
    AppendedLists(map[], ids, d, AdId("ab"));
    assert Repeat(d, 1) == [d];
    assert s1.adIDToDigests == Appended(map[], ids, d);
    assert ListOf(s1.adIDToDigests, AdId("a")) == [d] && d !in ListOf(s1.adIDToDigests, AdId("ab"));
    NotSpliced(s1.adIDToDigests, AdId("ab"), d);
    assert Run(hash, ops) == Deleted(hash, s1, b);
  }

  lemma NotSpliced(index: Index, id: AdId, d: Digest)
    requires d !in ListOf(index, id)
    ensures Spliced(index, [id], d) == index
  {
    assert Spliced(index, [id][..0], d) == index;
  }

  // ----- the class -----

  lemma AppendedMore(index: Index, ids: seq<AdId>, n: nat, d: Digest)
    requires n < |ids|
    ensures var before := Appended(index, ids[..n], d);
            Appended(index, ids[..n + 1], d) == before[ids[n] := ListOf(before, ids[n]) + [d]]
  {
    assert ids[..n + 1][..n] == ids[..n];
  }

  lemma SplicedMore(index: Index, ids: seq<AdId>, n: nat, d: Digest)
    requires n < |ids|
    ensures var before := Spliced(index, ids[..n], d);
            Spliced(index, ids[..n + 1], d) ==
              if d in ListOf(before, ids[n]) then before[ids[n] := RemoveFirst(before[ids[n]], d)] else before
  {
    assert ids[..n + 1][..n] == ids[..n];
  }

  lemma {:induction false} RemoveFirstAt(list: seq<Digest>, d: Digest, i: nat)
    requires i < |list| && list[i] == d && d !in list[..i]
    ensures RemoveFirst(list, d) == list[..i] + list[i + 1..]
  {
    if i > 0 {
      assert list[0] in list[..i];
      assert list[1..][..i - 1] == list[..i][1..];
      RemoveFirstAt(list[1..], d, i - 1);
    }
  }

  class Cache {
    const hash: string -> Digest
    var adIDToDigests: Index
    var digestToADId: map<Digest, seq<AdId>>
    var digestToTemplate: map<Digest, Config>

    ghost function View(): State
      reads this
    {
      State(adIDToDigests, digestToADId, digestToTemplate)
    }

    constructor (hash: string -> Digest)
      ensures this.hash == hash && View() == INITIAL
    {
      this.hash := hash;
      adIDToDigests, digestToADId, digestToTemplate := map[], map[], map[];
    }

    method Set(tpl: Config) returns (ok: bool)
      modifies this
      ensures ok == tpl.IsTemplate()
      ensures View() == Stored(hash, old(View()), tpl)
    {
      if |tpl.adIdentifiers| == 0 {
        return false;
      }
      var d := DigestOf(hash, tpl);
      if d in digestToADId {
        return true;
      }
      digestToTemplate := digestToTemplate[d := tpl];
      digestToADId := digestToADId[d := tpl.adIdentifiers];
      var ids := tpl.adIdentifiers;
      for n := 0 to |ids|
        invariant adIDToDigests == Appended(old(adIDToDigests), ids[..n], d)
        invariant digestToTemplate == old(digestToTemplate)[d := tpl] && digestToADId == old(digestToADId)[d := ids]
      {
        AppendedMore(old(adIDToDigests), ids, n, d);
        adIDToDigests := adIDToDigests[ids[n] := ListOf(adIDToDigests, ids[n]) + [d]];
      }
      assert ids[..|ids|] == ids;
      return true;
    }

    method Get(adID: AdId) returns (r: Result<seq<Config>>)
      ensures r.Ok? <==> adID in adIDToDigests
      ensures r.Ok? ==> r.value == Found(View(), adID)
    {
      if adID !in adIDToDigests {
        return Err;
      }
      var digests := adIDToDigests[adID];
      var templates: seq<Config> := [];
      for n := 0 to |digests|
        invariant templates == Found(View(), adID)[..n]
      {
        var tpl := if digests[n] in digestToTemplate then digestToTemplate[digests[n]] else EMPTY;
        templates := templates + [tpl];
      }
      return Ok(templates);
    }

    method Del(tpl: Config) returns (ok: bool)
      modifies this
      ensures ok == (DigestOf(hash, tpl) in old(digestToADId))
      ensures View() == Deleted(hash, old(View()), tpl)
    {
      var d := DigestOf(hash, tpl);
      if d !in digestToADId {
        return false;
      }
      digestToADId := digestToADId - {d};
      digestToTemplate := digestToTemplate - {d};
      var ids := tpl.adIdentifiers;
      for n := 0 to |ids|
        invariant adIDToDigests == Spliced(old(adIDToDigests), ids[..n], d)
        invariant digestToTemplate == old(digestToTemplate) - {d} && digestToADId == old(digestToADId) - {d}
      {
        SplicedMore(old(adIDToDigests), ids, n, d);
        var digests := ListOf(adIDToDigests, ids[n]);
        var i := 0;
        while i < |digests| && digests[i] != d
          invariant i <= |digests| && d !in digests[..i]
        {
          i := i + 1;
        }
        if i < |digests| {
          RemoveFirstAt(digests, d, i);
          adIDToDigests := adIDToDigests[ids[n] := digests[..i] + digests[i + 1..]];
        }
      }
      assert ids[..|ids|] == ids;
      return true;
    }
  }
}
