/** pkg/aggregator/sketch_map.go. A sketch is the list of insertions it received. */
module SketchMap {
  import opened Metrics
  import opened Wrappers

  datatype Insertion =
    | Value(v: real, sampleRate: Float)
    | Interpolated(lower: real, upper: real, count: nat)

  type Sketches = map<int, map<ContextKey, seq<Insertion>>>

  datatype SketchPoint = SketchPoint(key: ContextKey, ts: int, sketch: seq<Insertion>)

  /** The sketch at (ts, k); empty when there is none. */
  function At(m: Sketches, ts: int, k: ContextKey): seq<Insertion> {
    if ts in m && k in m[ts] then m[ts][k] else []
  }

  ghost predicate Holds(m: Sketches, ts: int, k: ContextKey) {
    ts in m && k in m[ts]
  }

  function Inserted(m: Sketches, ts: int, k: ContextKey, x: Insertion): Sketches {
    var byCtx := if ts in m then m[ts] else map[];
    m[ts := byCtx[k := At(m, ts, k) + [x]]]
  }

  /** Every stored sketch has received at least one insertion, so finishing it never gives nil. */
  ghost predicate NonEmpty(m: Sketches) {
    forall ts, k :: Holds(m, ts, k) ==> m[ts][k] != []
  }

  function Before(m: Sketches, beforeTs: int): set<int> {
    set ts | ts in m && ts < beforeTs
  }

  /** `points` lists every sketch of the given timestamps once, in some order. */
  ghost predicate Lists(points: seq<SketchPoint>, m: Sketches, timestamps: set<int>) {
    && (forall i, j :: 0 <= i < j < |points| ==> points[i] != points[j])
    && (forall p: SketchPoint :: p in points <==> p.ts in timestamps && Holds(m, p.ts, p.key) && m[p.ts][p.key] == p.sketch)
  }

  lemma ListsMore(points: seq<SketchPoint>, found: seq<SketchPoint>, m: Sketches, timestamps: set<int>, ts: int)
    requires Lists(points, m, timestamps) && ts !in timestamps && ts in m && Lists(found, map[ts := m[ts]], {ts})
    ensures Lists(points + found, m, timestamps + {ts})
  {
    var all := points + found;
    forall i, j | 0 <= i < j < |all|
      ensures all[i] != all[j]
    {
      if i < |points| <= j {
        assert all[i] in points && all[j] in found;
      }
    }
    forall p: SketchPoint
      ensures p in all <==> p in points || p in found
    {}
  }

  lemma RemovedMore(m: Sketches, timestamps: set<int>, ts: int)
    ensures (m - timestamps) - {ts} == m - (timestamps + {ts})
  {}

  lemma Overwritten(m: Sketches, ts: int, ck: ContextKey, s: seq<Insertion>, s': seq<Insertion>)
    ensures var byCtx := if ts in m then m[ts] else map[];
            m[ts := byCtx[ck := s]][ts := byCtx[ck := s][ck := s']] == m[ts := byCtx[ck := s']]
  {
    var byCtx := if ts in m then m[ts] else map[];
    assert byCtx[ck := s][ck := s'] == byCtx[ck := s'];
  }

  class Map {
    var m: Sketches

    constructor ()
      ensures m == map[]
    {
      m := map[];
    }

    method GetOrCreate(ts: int, ck: ContextKey) returns (s: seq<Insertion>)
      modifies this
      ensures s == At(old(m), ts, ck)
      ensures Holds(m, ts, ck) && m[ts][ck] == s
      ensures m == old(m)[ts := (if ts in old(m) then old(m)[ts] else map[])[ck := s]]
    {
      if ts !in m {
        m := m[ts := map[]];
      }
      if ck !in m[ts] {
        m := m[ts := m[ts][ck := []]];
      } else {
        assert m[ts][ck := m[ts][ck]] == m[ts];
        assert m[ts := m[ts]] == m;
      }
      s := m[ts][ck];
    }

    method Insert(ts: int, ck: ContextKey, v: Float, sampleRate: Float) returns (inserted: bool)
      modifies this
      ensures inserted == v.Finite?
      ensures m == if v.Finite? then Inserted(old(m), ts, ck, Value(v.r, sampleRate)) else old(m)
    {
      if !v.Finite? {
        return false;
      }
      var s := GetOrCreate(ts, ck);
      var x := Value(v.r, sampleRate);
      m := m[ts := m[ts][ck := s + [x]]];
      Overwritten(old(m), ts, ck, s, s + [x]);
      return true;
    }

    method InsertInterp(ts: int, ck: ContextKey, lower: Float, upper: Float, count: nat) returns (inserted: bool)
      modifies this
      ensures inserted == (lower.Finite? && upper.Finite?)
      ensures m == if inserted then Inserted(old(m), ts, ck, Interpolated(lower.r, upper.r, count)) else old(m)
    {
      if !lower.Finite? || !upper.Finite? {
        return false;
      }
      var s := GetOrCreate(ts, ck);
      var x := Interpolated(lower.r, upper.r, count);
      m := m[ts := m[ts][ck := s + [x]]];
      Overwritten(old(m), ts, ck, s, s + [x]);
      return true;
    }

    /** The callback of the source is the returned list of points. */
    method FlushBefore(beforeTs: int) returns (points: seq<SketchPoint>)
      modifies this
      ensures m == old(m) - Before(old(m), beforeTs)
      ensures Lists(points, old(m), Before(old(m), beforeTs))
    {
      points := [];
      var todo: set<int> := m.Keys;
      ghost var done: set<int> := {};
      ghost var m0 := m;
      while todo != {}
        invariant todo <= m0.Keys && done !! todo
        invariant forall t :: t in m0 && t !in todo ==> (t in done <==> t < beforeTs)
        invariant done <= Before(m0, beforeTs)
        invariant m == m0 - done
        invariant Lists(points, m0, done)
        decreases |todo|
      {
        var ts := Pick(todo);
        todo := todo - {ts};
        if ts < beforeTs {
          var found := PointsAt(ts, m[ts]);
          ListsMore(points, found, m0, done, ts);
          RemovedMore(m0, done, ts);
          points := points + found;
          m := m - {ts};
          done := done + {ts};
        }
      }
      assert done == Before(m0, beforeTs);
    }

    method PointsAt(ts: int, byCtx: map<ContextKey, seq<Insertion>>) returns (points: seq<SketchPoint>)
      ensures Lists(points, map[ts := byCtx], {ts})
    {
      points := [];
      var todo := byCtx.Keys;
      while todo != {}
        invariant todo <= byCtx.Keys
        invariant forall i, j :: 0 <= i < j < |points| ==> points[i] != points[j]
        invariant forall p :: p in points <==> p.ts == ts && p.key in byCtx.Keys - todo && byCtx[p.key] == p.sketch
        decreases |todo|
      {
        var k := Pick(todo);
        points := points + [SketchPoint(k, ts, byCtx[k])];
        todo := todo - {k};
      }
    }
  }
}
