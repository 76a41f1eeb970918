/**
 The job closure of make_simple_gitlab_yml in tasks/test.py. Popped jobs can be added again, so the
 loop ends only when no requested job leads into a dependency cycle: MakeSimple, EndsIff.
 */
module GitlabJobs {
  import opened Wrappers

  datatype Job = Job(name: string)

  datatype Bases = NoBase | OneBase(base: Job) | ManyBases(list: seq<Job>)

  /** One job of the file; `keys` holds everything but `needs` and `extends`, which is held by `bases`. */
  datatype Entry = Entry(needs: Option<seq<Job>>, bases: Bases, keys: map<string, string>)

  type Jobs = map<Job, Entry>

  const RESERVED: set<Job> := {Job("stages"), Job("variables"), Job("include"), Job("default")}
  const FILTERS: set<string> := {"rules", "except", "only"}

  function SetOf(jobs: seq<Job>): set<Job> {
    set j | j in jobs
  }

  function BaseJobs(e: Bases): set<Job> {
    match e
    case NoBase => {}
    case OneBase(b) => {b}
    case ManyBases(bs) => SetOf(bs)
  }

  /** The names that processing a job adds to the worklist. */
  function Deps(data: Jobs, skipNeeds: bool, j: Job): set<Job> {
    if j !in data then {}
    else (if !skipNeeds && data[j].needs.Some? then SetOf(data[j].needs.value) else {}) + BaseJobs(data[j].bases)
  }

  function Stripped(e: Entry): Entry {
    e.(keys := e.keys - FILTERS)
  }

  /** The dependency relation: what each job of the file adds. */
  function Graph(data: Jobs, skipNeeds: bool): map<Job, set<Job>> {
    map j | j in data :: Deps(data, skipNeeds, j)
  }

  function Next(g: map<Job, set<Job>>, j: Job): set<Job> {
    if j in g then g[j] else {}
  }

  ghost predicate Closed(g: map<Job, set<Job>>, s: set<Job>) {
    forall j :: j in s ==> Next(g, j) <= s
  }

  /** `reach` is the least set that holds the requested jobs and everything they lead to. */
  ghost predicate IsReach(g: map<Job, set<Job>>, requested: set<Job>, reach: set<Job>) {
    && requested <= reach && Closed(g, reach)
    && forall s: set<Job> :: requested <= s && Closed(g, s) ==> reach <= s
  }

  ghost predicate LeadsInto(g: map<Job, set<Job>>, j: Job, u: set<Job>) {
    exists d :: d in Next(g, j) && d in u
  }

  /** A set of jobs each of which leads to one of the set: it holds a cycle. */
  ghost predicate Trap(g: map<Job, set<Job>>, u: set<Job>) {
    forall j {:trigger LeadsInto(g, j, u)} :: j in u ==> LeadsInto(g, j, u)
  }

  /** No requested job leads into a cycle. */
  ghost predicate Acyclic(g: map<Job, set<Job>>, requested: set<Job>) {
    forall u :: Trap(g, u) ==> u !! requested
  }

  // ----- a measure for the worklist -----

  /** Each job of the order leads only to earlier ones and to names that are not in the graph. */
  ghost predicate Order(g: map<Job, set<Job>>, order: seq<Job>) {
    && (forall i, j :: 0 <= i < j < |order| ==> order[i] != order[j])
    && (forall i, d :: 0 <= i < |order| && d in Next(g, order[i]) ==> d in order[..i] || d !in g)
  }

  /** The weight of a job is one more than the weights of everything it adds. */
  ghost function Weight(g: map<Job, set<Job>>, order: seq<Job>, j: Job): nat
    decreases |order|, 0
  {
    if order == [] then 1
    else
      var n := |order| - 1;
      if order[n] == j then 1 + Total(g, order[..n], Next(g, j)) else Weight(g, order[..n], j)
  }

  ghost function Total(g: map<Job, set<Job>>, order: seq<Job>, jobs: set<Job>): nat
    decreases |order|, 1, |jobs|
  {
    if jobs == {} then 0
    else
      var j := AnyOf(jobs);
      Weight(g, order, j) + Total(g, order, jobs - {j})
  }

  lemma {:induction false} TotalRemove(g: map<Job, set<Job>>, order: seq<Job>, jobs: set<Job>, j: Job)
    requires j in jobs
    ensures Total(g, order, jobs) == Weight(g, order, j) + Total(g, order, jobs - {j})
    decreases |jobs|
  {
    var k := AnyOf(jobs);
    if k != j {
      TotalRemove(g, order, jobs - {k}, j);
      TotalRemove(g, order, jobs - {j}, k);
      assert jobs - {k} - {j} == jobs - {j} - {k};
    }
  }

  lemma {:induction false} TotalUnion(g: map<Job, set<Job>>, order: seq<Job>, a: set<Job>, b: set<Job>)
    ensures Total(g, order, a + b) <= Total(g, order, a) + Total(g, order, b)
    decreases |b|
  {
    if b == {} {
      assert a + b == a;
    } else {
      var j := AnyOf(b);
      TotalUnion(g, order, a, b - {j});
      if j in a {
        assert a + b == a + (b - {j});
      } else {
        TotalRemove(g, order, a + b, j);
        assert a + b - {j} == a + (b - {j});
      }
    }
  }

  lemma {:induction false} SameWeight(g: map<Job, set<Job>>, order: seq<Job>, n: nat, j: Job)
    requires n <= |order| && j !in order[n..]
    ensures Weight(g, order, j) == Weight(g, order[..n], j)
    decreases |order|
  {
    if n == |order| {
      assert order[..n] == order;
    } else {
      var m := |order| - 1;
      assert order[m] in order[n..];
      assert forall x :: x in order[..m][n..] ==> x in order[n..];
      SameWeight(g, order[..m], n, j);
      assert order[..m][..n] == order[..n];
    }
  }

  lemma {:induction false} SameTotal(g: map<Job, set<Job>>, order: seq<Job>, n: nat, jobs: set<Job>)
    requires n <= |order| && forall j :: j in jobs ==> j !in order[n..]
    ensures Total(g, order, jobs) == Total(g, order[..n], jobs)
    decreases |jobs|
  {
    if jobs != {} {
      var j := AnyOf(jobs);
      SameWeight(g, order, n, j);
      SameTotal(g, order, n, jobs - {j});
    }
  }

  lemma {:induction false} WeightPositive(g: map<Job, set<Job>>, order: seq<Job>, j: Job)
    ensures Weight(g, order, j) >= 1
    decreases |order|
  {
    if order != [] && order[|order| - 1] != j {
      WeightPositive(g, order[..|order| - 1], j);
    }
  }

  /** The jobs that order[i] leads to have nothing to do with the order from i on. */
  lemma LeadsEarlier(g: map<Job, set<Job>>, order: seq<Job>, i: nat, d: Job)
    requires Order(g, order) && i < |order| && d in Next(g, order[i]) && (d in g ==> d in order)
    requires forall k :: k in order ==> k in g
    ensures d !in order[i..]
  {
  }

  lemma WeightCovers(g: map<Job, set<Job>>, order: seq<Job>, j: Job)
    requires Order(g, order) && (j in g ==> j in order)
    requires forall k :: k in order ==> k in g
    requires forall d :: d in Next(g, j) && d in g ==> d in order
    ensures Weight(g, order, j) > Total(g, order, Next(g, j))
  {
    if j in g {
      var i :| 0 <= i < |order| && order[i] == j;
      assert order[..i + 1][..i] == order[..i];
      SameWeight(g, order, i + 1, j);
      forall d | d in Next(g, j)
        ensures d !in order[i..]
      {
        LeadsEarlier(g, order, i, d);
      }
      SameTotal(g, order, i, Next(g, j));
    } else {
      WeightPositive(g, order, j);
    }
  }

  /** Popping any pending job and adding what it leads to makes the total smaller. */
  lemma PopDecreases(g: map<Job, set<Job>>, order: seq<Job>, pending: set<Job>, j: Job)
    requires Order(g, order) && j in pending && (j in g ==> j in order)
    requires forall k :: k in order ==> k in g
    requires forall d :: d in Next(g, j) && d in g ==> d in order
    ensures Total(g, order, pending - {j} + Next(g, j)) < Total(g, order, pending)
  {
    WeightCovers(g, order, j);
    TotalRemove(g, order, pending, j);
    TotalUnion(g, order, pending - {j}, Next(g, j));
  }

  // ----- an order exists without traps -----

  /** The jobs from which some cycle can be reached. */
  ghost function Trapped(g: map<Job, set<Job>>): set<Job> {
    set j | j in g && exists u :: Trap(g, u) && j in u
  }

  lemma TrapGrows(g: map<Job, set<Job>>, u: set<Job>, j: Job)
    requires Trap(g, u) && LeadsInto(g, j, u)
    ensures Trap(g, u + {j})
  {
    forall k | k in u + {j}
      ensures LeadsInto(g, k, u + {j})
    {
      assert LeadsInto(g, k, u);
      var d :| d in Next(g, k) && d in u;
      assert d in u + {j};
    }
  }

  /** A job that leads to a trapped job is trapped. */
  lemma TrappedBackwards(g: map<Job, set<Job>>, j: Job)
    requires LeadsInto(g, j, Trapped(g))
    ensures j in Trapped(g)
  {
    var d :| d in Next(g, j) && d in Trapped(g);
    var u :| Trap(g, u) && d in u;
    assert LeadsInto(g, j, u);
    TrapGrows(g, u, j);
    assert j in u + {j};
  }

  lemma TrapIsTrapped(g: map<Job, set<Job>>, u: set<Job>)
    requires Trap(g, u)
    ensures u <= Trapped(g)
  {
    forall j | j in u
      ensures j in g
    {
      assert LeadsInto(g, j, u);
    }
  }

  /** Outside every trap some job leads to nothing of the rest. */
  lemma FreeJob(g: map<Job, set<Job>>, left: set<Job>) returns (j: Job)
    requires left != {} && left !! Trapped(g)
    ensures j in left && !LeadsInto(g, j, left)
  {
    j := AnyOf(left);
    if Trap(g, left) {
      TrapIsTrapped(g, left);
    } else {
      j :| j in left && !LeadsInto(g, j, left);
    }
  }

  lemma OrderMore(g: map<Job, set<Job>>, order: seq<Job>, j: Job)
    requires Order(g, order) && j !in order
    requires forall d :: d in Next(g, j) ==> d in order || d !in g
    ensures Order(g, order + [j])
  {
    var more := order + [j];
    forall i, d | 0 <= i < |more| && d in Next(g, more[i])
      ensures d in more[..i] || d !in g
    {
      assert more[..i] == order[..i];
      if i == |order| {
        assert order[..i] == order;
      }
    }
  }

  /** Everything that the jobs still left lead to is left too, or placed, or not in the graph. */
  ghost predicate Waiting(g: map<Job, set<Job>>, placed: set<Job>, left: set<Job>) {
    && placed !! left && left !! Trapped(g)
    && forall j, d :: j in left && d in Next(g, j) && d in g ==> d in left || d in placed
  }

  ghost predicate Orders(g: map<Job, set<Job>>, order: seq<Job>, placed: set<Job>) {
    Order(g, order) && forall j :: j in order <==> j in placed
  }

  /** The next job can be placed when everything it leads to is placed, or not in the graph. */
  lemma PlaceNext(g: map<Job, set<Job>>, order: seq<Job>, placed: set<Job>, left: set<Job>) returns (j: Job)
    requires Orders(g, order, placed) && Waiting(g, placed, left) && left != {}
    ensures j in left && Orders(g, order + [j], placed + {j}) && Waiting(g, placed + {j}, left - {j})
  {
    j := FreeJob(g, left);
    OrderMore(g, order, j);
  }

  /** Jobs that lead into no trap can be put in order, one job with nothing left to wait for at a time. */
  lemma {:induction false} MakeOrder(g: map<Job, set<Job>>, order: seq<Job>, placed: set<Job>, left: set<Job>) returns (all: seq<Job>)
    requires Orders(g, order, placed) && Waiting(g, placed, left)
    ensures Orders(g, all, placed + left)
    decreases |left|
  {
    if left == {} {
      all := order;
    } else {
      var j := PlaceNext(g, order, placed, left);
      assert |left - {j}| < |left|;
      all := MakeOrder(g, order + [j], placed + {j}, left - {j});
      assert placed + {j} + (left - {j}) == placed + left;
    }
  }

  lemma OrderExists(g: map<Job, set<Job>>) returns (order: seq<Job>)
    ensures Orders(g, order, g.Keys - Trapped(g))
  {
    forall j, d | j in g.Keys - Trapped(g) && d in Next(g, j)
      ensures d !in Trapped(g)
    {
      if d in Trapped(g) {
        TrappedBackwards(g, j);
      }
    }
    order := MakeOrder(g, [], {}, g.Keys - Trapped(g));
    assert {} + (g.Keys - Trapped(g)) == g.Keys - Trapped(g);
  }

  // ----- the loop -----

  /** One round of the loop, for any job that `pop` may choose. */
  ghost predicate Round(g: map<Job, set<Job>>, pending: set<Job>, pending': set<Job>) {
    exists j :: j in pending && pending' == pending - {j} + Next(g, j)
  }

  /** The pending sets of one execution, not necessarily complete. */
  ghost predicate Execution(g: map<Job, set<Job>>, requested: set<Job>, trace: seq<set<Job>>) {
    && trace != [] && trace[0] == requested
    && forall i :: 0 < i < |trace| ==> Round(g, trace[i - 1], trace[i])
  }

  /** The worklist stays outside the trapped jobs. */
  lemma StaysFree(g: map<Job, set<Job>>, pending: set<Job>, j: Job)
    requires pending !! Trapped(g) && j in pending
    ensures Next(g, j) !! Trapped(g)
  {
    forall d | d in Next(g, j)
      ensures d !in Trapped(g)
    {
      if d in Trapped(g) {
        TrappedBackwards(g, j);
      }
    }
  }

  lemma AcyclicIsFree(g: map<Job, set<Job>>, requested: set<Job>)
    ensures Acyclic(g, requested) <==> requested !! Trapped(g)
  {
    if Acyclic(g, requested) {
      forall j | j in Trapped(g)
        ensures j !in requested
      {
        var u :| Trap(g, u) && j in u;
        assert u !! requested;
      }
    }
    if requested !! Trapped(g) {
      forall u | Trap(g, u)
        ensures u !! requested
      {
        TrapIsTrapped(g, u);
      }
    }
  }

  lemma RoundDecreases(g: map<Job, set<Job>>, order: seq<Job>, pending: set<Job>, j: Job)
    requires Orders(g, order, g.Keys - Trapped(g))
    requires pending !! Trapped(g) && j in pending
    ensures Total(g, order, pending - {j} + Next(g, j)) < Total(g, order, pending)
    ensures pending - {j} + Next(g, j) !! Trapped(g)
  {
    StaysFree(g, pending, j);
    PopDecreases(g, order, pending, j);
  }

  lemma {:induction false} ExecutionBound(g: map<Job, set<Job>>, order: seq<Job>, requested: set<Job>, trace: seq<set<Job>>)
    requires Orders(g, order, g.Keys - Trapped(g)) && requested !! Trapped(g)
    requires Execution(g, requested, trace)
    ensures trace[|trace| - 1] !! Trapped(g)
    ensures |trace| - 1 + Total(g, order, trace[|trace| - 1]) <= Total(g, order, requested)
  {
    if |trace| > 1 {
      var n := |trace| - 1;
      assert Execution(g, requested, trace[..n]);
      ExecutionBound(g, order, requested, trace[..n]);
      assert Round(g, trace[n - 1], trace[n]);
      var j :| j in trace[n - 1] && trace[n] == trace[n - 1] - {j} + Next(g, j);
      RoundDecreases(g, order, trace[n - 1], j);
    }
  }

  /** A requested job in a trap keeps the worklist non-empty, whatever is popped. */
  lemma {:induction false} TrapKeepsPending(g: map<Job, set<Job>>, u: set<Job>, requested: set<Job>, trace: seq<set<Job>>, k: Job)
    returns (still: Job)
    requires Trap(g, u) && k in u && k in requested && Execution(g, requested, trace)
    ensures still in u && still in trace[|trace| - 1]
  {
    if |trace| == 1 {
      still := k;
    } else {
      var n := |trace| - 1;
      assert Execution(g, requested, trace[..n]);
      still := TrapKeepsPending(g, u, requested, trace[..n], k);
      assert Round(g, trace[n - 1], trace[n]);
      var j :| j in trace[n - 1] && trace[n] == trace[n - 1] - {j} + Next(g, j);
      if j == still {
        assert LeadsInto(g, j, u);
        still :| still in Next(g, j) && still in u;
      }
    }
  }

  lemma {:induction false} LongExecution(g: map<Job, set<Job>>, u: set<Job>, requested: set<Job>, k: Job, n: nat)
    returns (trace: seq<set<Job>>)
    requires Trap(g, u) && k in u && k in requested
    ensures Execution(g, requested, trace) && |trace| == n + 1
  {
    if n == 0 {
      trace := [requested];
    } else {
      trace := LongExecution(g, u, requested, k, n - 1);
      var j := TrapKeepsPending(g, u, requested, trace, k);
      var last := trace[|trace| - 1];
      assert Round(g, last, last - {j} + Next(g, j));
      trace := trace + [last - {j} + Next(g, j)];
    }
  }

  ghost predicate AllEndWithin(g: map<Job, set<Job>>, requested: set<Job>, n: nat) {
    forall trace :: Execution(g, requested, trace) ==> |trace| <= n
  }

  /** Some execution empties the worklist. */
  ghost predicate CanEnd(g: map<Job, set<Job>>, requested: set<Job>) {
    exists trace :: Execution(g, requested, trace) && trace[|trace| - 1] == {}
  }

  lemma {:induction false} Ending(g: map<Job, set<Job>>, order: seq<Job>, requested: set<Job>, trace: seq<set<Job>>)
    requires Orders(g, order, g.Keys - Trapped(g)) && requested !! Trapped(g) && Execution(g, requested, trace)
    ensures CanEnd(g, requested)
    decreases Total(g, order, trace[|trace| - 1])
  {
    var last := trace[|trace| - 1];
    ExecutionBound(g, order, requested, trace);
    if last != {} {
      var j :| j in last;
      RoundDecreases(g, order, last, j);
      assert Round(g, last, last - {j} + Next(g, j));
      Ending(g, order, requested, trace + [last - {j} + Next(g, j)]);
    }
  }

  /**
   The loop ends for every choice of `pop`, exactly when no requested job leads into a cycle; otherwise it ends for
   none: no execution ever empties the worklist.
   */
  lemma EndsIff(g: map<Job, set<Job>>, requested: set<Job>)
    ensures (exists n: nat :: AllEndWithin(g, requested, n)) <==> Acyclic(g, requested)
    ensures CanEnd(g, requested) <==> Acyclic(g, requested)
  {
    AcyclicIsFree(g, requested);
    if Acyclic(g, requested) {
      var order := OrderExists(g);
      var n := Total(g, order, requested) + 1;
      forall trace | Execution(g, requested, trace)
        ensures |trace| <= n
      {
        ExecutionBound(g, order, requested, trace);
      }
      assert AllEndWithin(g, requested, n);
      assert Execution(g, requested, [requested]);
      Ending(g, order, requested, [requested]);
    } else {
      var u :| Trap(g, u) && !(u !! requested);
      var k :| k in u && k in requested;
      NeverEnds(g, u, requested, k);
    }
  }

  lemma NeverEnds(g: map<Job, set<Job>>, u: set<Job>, requested: set<Job>, k: Job)
    requires Trap(g, u) && k in u && k in requested
    ensures !CanEnd(g, requested) && forall n: nat :: !AllEndWithin(g, requested, n)
  {
    forall trace | Execution(g, requested, trace)
      ensures trace[|trace| - 1] != {}
    {
      var still := TrapKeepsPending(g, u, requested, trace, k);
    }
    forall n: nat
      ensures !AllEndWithin(g, requested, n)
    {
      var trace := LongExecution(g, u, requested, k, n);
      assert |trace| > n;
    }
  }

  /** A job that extends itself: no execution ends, and whatever bound is tried, some execution is longer. */
  lemma SelfReferenceNeverEnds(j: Job)
    ensures !CanEnd(map[j := {j}], {j}) && forall n: nat :: !AllEndWithin(map[j := {j}], {j}, n)
  {
    var g := map[j := {j}];
    assert LeadsInto(g, j, {j});
    assert Trap(g, {j}) && !({j} !! {j});
    EndsIff(g, {j});
  }

  /** The dictionary once the jobs `popped` have lost their filters. */
  function StrippedAt(data: Jobs, popped: set<Job>): Jobs {
    map j | j in data :: if j in popped then Stripped(data[j]) else data[j]
  }

  /** `popped` and `pending` together hold nothing but reachable jobs, and everything the popped jobs lead to. */
  ghost predicate Exploring(g: map<Job, set<Job>>, requested: set<Job>, popped: set<Job>, pending: set<Job>) {
    && requested <= popped + pending
    && (forall j :: j in popped ==> Next(g, j) <= popped + pending)
    && forall s: set<Job> :: requested <= s && Closed(g, s) ==> popped + pending <= s
  }

  lemma ExploreMore(g: map<Job, set<Job>>, requested: set<Job>, popped: set<Job>, pending: set<Job>, j: Job)
    requires Exploring(g, requested, popped, pending) && j in pending
    ensures Exploring(g, requested, popped + {j}, pending - {j} + Next(g, j))
  {
    var popped', pending' := popped + {j}, pending - {j} + Next(g, j);
    assert popped + pending <= popped' + pending';
    forall s: set<Job> | requested <= s && Closed(g, s)
      ensures popped' + pending' <= s
    {
      assert popped + pending <= s && Next(g, j) <= s;
    }
  }

  function ProcessedAt(data: Jobs, popped: set<Job>): set<Job> {
    RESERVED + popped * data.Keys
  }

  function Kept(data: Jobs, reach: set<Job>): Jobs {
    map j | j in data && (j in reach || j in RESERVED) :: if j in reach then Stripped(data[j]) else data[j]
  }

  // ----- what is kept -----

  /** Job j of the file needs job d, unless needs are skipped, or extends it, alone or in a list. */
  predicate Wants(data: Jobs, skipNeeds: bool, j: Job, d: Job) {
    j in data &&
    ( || (!skipNeeds && data[j].needs.Some? && d in data[j].needs.value)
      || (data[j].bases.OneBase? && data[j].bases.base == d)
      || (data[j].bases.ManyBases? && d in data[j].bases.list))
  }

  /** From a requested job, each job of the chain wants the next one. */
  ghost predicate Chain(data: Jobs, skipNeeds: bool, requested: set<Job>, chain: seq<Job>) {
    && chain != [] && chain[0] in requested
    && forall i :: 0 < i < |chain| ==> Wants(data, skipNeeds, chain[i - 1], chain[i])
  }

  ghost predicate ChainTo(data: Jobs, skipNeeds: bool, requested: set<Job>, j: Job) {
    exists chain :: Chain(data, skipNeeds, requested, chain) && chain[|chain| - 1] == j
  }

  lemma WantsIsNext(data: Jobs, skipNeeds: bool, j: Job, d: Job)
    ensures d in Next(Graph(data, skipNeeds), j) <==> Wants(data, skipNeeds, j, d)
  {}

  lemma ChainMore(data: Jobs, skipNeeds: bool, requested: set<Job>, j: Job, d: Job)
    requires ChainTo(data, skipNeeds, requested, j) && Wants(data, skipNeeds, j, d)
    ensures ChainTo(data, skipNeeds, requested, d)
  {
    var chain :| Chain(data, skipNeeds, requested, chain) && chain[|chain| - 1] == j;
    assert Chain(data, skipNeeds, requested, chain + [d]);
  }

  lemma {:induction false} ChainStays(data: Jobs, skipNeeds: bool, requested: set<Job>, reach: set<Job>, chain: seq<Job>)
    requires requested <= reach && Closed(Graph(data, skipNeeds), reach) && Chain(data, skipNeeds, requested, chain)
    ensures chain[|chain| - 1] in reach
  {
    if |chain| > 1 {
      var n := |chain| - 1;
      ChainStays(data, skipNeeds, requested, reach, chain[..n]);
      WantsIsNext(data, skipNeeds, chain[n - 1], chain[n]);
    }
  }

  lemma ReachIsChains(data: Jobs, skipNeeds: bool, requested: set<Job>, reach: set<Job>)
    requires IsReach(Graph(data, skipNeeds), requested, reach)
    ensures forall j :: j in reach <==> ChainTo(data, skipNeeds, requested, j)
  {
    var g, chained := Graph(data, skipNeeds), set j | j in reach && ChainTo(data, skipNeeds, requested, j);
    forall j | j in requested
      ensures j in chained
    {
      assert Chain(data, skipNeeds, requested, [j]);
      assert [j][|[j]| - 1] == j;
    }
    forall j | j in chained
      ensures Next(g, j) <= chained
    {
      forall d | d in Next(g, j)
        ensures d in chained
      {
        WantsIsNext(data, skipNeeds, j, d);
        ChainMore(data, skipNeeds, requested, j, d);
      }
    }
    assert Closed(g, chained);
    forall j | ChainTo(data, skipNeeds, requested, j)
      ensures j in reach
    {
      var chain :| Chain(data, skipNeeds, requested, chain) && chain[|chain| - 1] == j;
      ChainStays(data, skipNeeds, requested, reach, chain);
    }
  }

  /**
   The written file has the jobs to which a chain leads and the four reserved keys, each as it was, except that the jobs
   with a chain have lost their filters.
   */
  lemma KeptExactly(data: Jobs, skipNeeds: bool, requested: set<Job>, reach: set<Job>, j: Job)
    requires IsReach(Graph(data, skipNeeds), requested, reach)
    ensures var out, chained := Kept(data, reach), ChainTo(data, skipNeeds, requested, j);
            && (j in out <==> j in data && (chained || j.name in ["stages", "variables", "include", "default"]))
            && (j in out ==>
                  && out[j].needs == data[j].needs && out[j].bases == data[j].bases
                  && (forall k :: k in out[j].keys <==> k in data[j].keys && !(chained && k in ["rules", "except", "only"]))
                  && forall k :: k in out[j].keys ==> out[j].keys[k] == data[j].keys[k])
  {
    ReachIsChains(data, skipNeeds, requested, reach);
    assert j in RESERVED <==> j.name in ["stages", "variables", "include", "default"];
    assert forall k :: k in FILTERS <==> k in ["rules", "except", "only"];
  }

  lemma StrippedStart(data: Jobs)
    ensures StrippedAt(data, {}) == data && ProcessedAt(data, {}) == RESERVED
  {}

  lemma KeptIsProcessed(data: Jobs, reach: set<Job>)
    ensures (map j | j in StrippedAt(data, reach) && j in ProcessedAt(data, reach) :: StrippedAt(data, reach)[j]) == Kept(data, reach)
  {}

  lemma StrippedMore(data: Jobs, popped: set<Job>, name: Job, skipNeeds: bool)
    ensures var jobs := StrippedAt(data, popped);
            && StrippedAt(data, popped + {name}) == (if name in jobs then jobs[name := Stripped(jobs[name])] else jobs)
            && ProcessedAt(data, popped + {name}) == (if name in jobs then ProcessedAt(data, popped) + {name} else ProcessedAt(data, popped))
            && Deps(jobs, skipNeeds, name) == Next(Graph(data, skipNeeds), name)
  {
    assert name in data ==> Stripped(Stripped(data[name])) == Stripped(data[name]);
  }

  /** The body of the loop, after `name` was popped. */
  method ProcessJob(jobs: Jobs, processed: set<Job>, pending: set<Job>, name: Job, skipNeeds: bool)
    returns (jobs': Jobs, processed': set<Job>, pending': set<Job>)
    ensures jobs' == if name in jobs then jobs[name := Stripped(jobs[name])] else jobs
    ensures processed' == if name in jobs then processed + {name} else processed
    ensures pending' == pending + Deps(jobs, skipNeeds, name)
  {
    jobs', processed', pending' := jobs, processed, pending;
    if name in jobs {
      var job := jobs[name];
      processed' := processed' + {name};
      if !skipNeeds && job.needs.Some? {
        pending' := pending' + SetOf(job.needs.value);
      }
      pending' := pending' + BaseJobs(job.bases);
      jobs' := jobs'[name := Stripped(job)];
    }
  }

  /**
   The file keeps exactly the jobs that the requested ones lead to, without their filters, and
   the reserved keys. The loop ends because no requested job leads into a cycle.
   */
  method MakeSimple(data: Jobs, requested: set<Job>, skipNeeds: bool) returns (out: Jobs, ghost reach: set<Job>)
    requires Acyclic(Graph(data, skipNeeds), requested)
    ensures IsReach(Graph(data, skipNeeds), requested, reach)
    ensures out == Kept(data, reach)
    ensures forall j :: j in out <==> j in data && (ChainTo(data, skipNeeds, requested, j) || j in RESERVED)
    ensures forall j :: j in out ==> out[j] == if ChainTo(data, skipNeeds, requested, j) then Stripped(data[j]) else data[j]
  {
    ghost var g := Graph(data, skipNeeds);
    AcyclicIsFree(g, requested);
    ghost var order := OrderExists(g);
    reach := {};
    StrippedStart(data);
    var jobs := data;
    var processed, pending := RESERVED, requested;
    while pending != {}
      invariant jobs == StrippedAt(data, reach)
      invariant processed == ProcessedAt(data, reach)
      invariant Exploring(g, requested, reach, pending) && pending !! Trapped(g)
      decreases Total(g, order, pending)
    {
      var name := Pick(pending);
      RoundDecreases(g, order, pending, name);
      ExploreMore(g, requested, reach, pending, name);
      StrippedMore(data, reach, name, skipNeeds);
      jobs, processed, pending := ProcessJob(jobs, processed, pending - {name}, name, skipNeeds);
      reach := reach + {name};
    }
    KeptIsProcessed(data, reach);
    out := map j | j in jobs && j in processed :: jobs[j];
    ReachIsChains(data, skipNeeds, requested, reach);
  }
}
