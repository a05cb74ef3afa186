/** Trading points after a split: nothing is lost, every block's points stay inside its core, the
    out-of-bounds throw is never reached, and the cores keep tiling the domain. */
module KdExchange {
  import opened Options
  import opened Coordinates
  import opened Factoring
  import opened Groups
  import opened Schedules
  import opened KdGeometry
  import opened KdLinks
  import opened KdAdjacency
  import opened KdStep
  import opened KdPoints
  import opened Pools

  // ---------- one block ----------

  /** The points on one side of a split, in order. */
  function Side(points: seq<Point>, dim: nat, split: real, low: bool): seq<Point>
    requires Reach(points, dim)
  {
    if points == [] then [] else
    var n := |points| - 1;
    Side(points[..n], dim, split, low) + (if (points[n][dim] < split) == low then [points[n]] else [])
  }

  /** `enqueue_exchange`: picks the split, keeps the points of the block's own half, sends the others to
      the other target, and shrinks the core. */
  method EnqueueExchange(gid: int, targets: seq<int>, points: seq<Point>, core: Box, dim: nat, bins: nat,
          histogram: seq<nat>)
    returns (kept: seq<Point>, outbox: map<int, seq<Point>>, newCore: Box, ghost split: real, ghost at: nat)
    requires |histogram| == bins && 0 < bins < SIZE_T && dim < |core.min| && dim < |core.max| && Reach(points, dim)
    requires |targets| == 2 && targets[0] != targets[1] && gid in targets
    ensures Passes(histogram, at) && split == SplitAt(core, dim, bins, SplitIndex(histogram, at))
    ensures var low := gid == targets[0];
            && kept == Side(points, dim, split, low)
            && (forall c :: c in outbox <==> c == targets[if low then 1 else 0])
            && outbox[targets[if low then 1 else 0]] == Side(points, dim, split, !low)
            && newCore == Half(core, split, dim, low)
  {
    var s;
    s, at := PickSplit(histogram, core, dim, bins);
    split := s;
    var outPoints: seq<seq<Point>> := [[], []];
    for i := 0 to |points|
      invariant |outPoints| == 2
      invariant outPoints[0] == Side(points[..i], dim, s, true) && outPoints[1] == Side(points[..i], dim, s, false)
    {
      assert points[..i + 1][..i] == points[..i];
      var loc := if points[i][dim] < s then 0 else 1;
      outPoints := outPoints[loc := outPoints[loc] + [points[i]]];
    }
    assert points[..|points|] == points;
    kept, outbox := points, map[];
    var pos := -1;
    for i := 0 to |targets|
      invariant pos == -1 || 0 <= pos < i
      invariant forall t :: 0 <= t < i ==> (pos == t <==> targets[t] == gid)
      invariant pos >= 0 ==> kept == outPoints[pos]
      invariant forall t :: 0 <= t < i && targets[t] != gid ==>
          targets[t] in outbox && outbox[targets[t]] == outPoints[t]
      invariant forall c :: c in outbox ==> c != gid && exists t :: 0 <= t < i && targets[t] == c
    {
      if targets[i] == gid {
        kept := outPoints[i];
        pos := i;
      } else {
        outbox := outbox[targets[i] := outPoints[i]];
      }
    }
    assert targets[if gid == targets[0] then 1 else 0] != gid;
    newCore := Half(core, s, dim, pos == 0);
  }

  /** What arrives from the listed blocks other than gid, in their order. */
  function Arrivals(gid: int, sources: seq<int>, inbox: map<int, seq<Point>>): seq<Point>
    requires forall i :: 0 <= i < |sources| && sources[i] != gid ==> sources[i] in inbox
  {
    if sources == [] then [] else
    var n := |sources| - 1;
    Arrivals(gid, sources[..n], inbox) + (if sources[n] == gid then [] else inbox[sources[n]])
  }

  ghost predicate Outside(points: seq<Point>, core: Box, dim: nat)
    requires dim < |core.min| && dim < |core.max| && Reach(points, dim)
  {
    exists i :: 0 <= i < |points| && (points[i][dim] < core.min[dim] || points[i][dim] > core.max[dim])
  }

  /** The inner loop: the points of one message, checked one by one. */
  method Accept(points: seq<Point>, inPoints: seq<Point>, core: Box, dim: nat) returns (r: Option<seq<Point>>)
    requires dim < |core.min| && dim < |core.max| && Reach(inPoints, dim)
    ensures r == if Outside(inPoints, core, dim) then None else Some(points + inPoints)
  {
    var result := points;
    for j := 0 to |inPoints|
      invariant result == points + inPoints[..j]
      invariant forall i :: 0 <= i < j ==> core.min[dim] <= inPoints[i][dim] <= core.max[dim]
    {
      if inPoints[j][dim] < core.min[dim] || inPoints[j][dim] > core.max[dim] {
        return None;
      }
      result := result + [inPoints[j]];
    }
    assert inPoints[..|inPoints|] == inPoints;
    return Some(result);
  }

  /** `dequeue_exchange`: a point outside the block's new core throws. */
  method DequeueExchange(gid: int, sources: seq<int>, inbox: map<int, seq<Point>>, points: seq<Point>, core: Box,
          dim: nat)
    returns (r: Option<seq<Point>>)
    requires forall i :: 0 <= i < |sources| && sources[i] != gid ==> sources[i] in inbox
    requires dim < |core.min| && dim < |core.max| && Reach(Arrivals(gid, sources, inbox), dim)
    ensures r == if Outside(Arrivals(gid, sources, inbox), core, dim) then None
        else Some(points + Arrivals(gid, sources, inbox))
  {
    ghost var sofar := [];
    var result := points;
    for i := 0 to |sources|
      invariant sofar == Arrivals(gid, sources[..i], inbox) && result == points + sofar
      invariant Reach(sofar, dim) && !Outside(sofar, core, dim)
    {
      assert sources[..i + 1][..i] == sources[..i];
      if sources[i] != gid {
        ArrivalsPrefix(gid, sources, inbox, i + 1);
        ReachParts(sofar, inbox[sources[i]], Arrivals(gid, sources, inbox), core, dim);
        var accepted := Accept(result, inbox[sources[i]], core, dim);
        if accepted.None? {
          return None;
        }
        result := accepted.value;
        sofar := sofar + inbox[sources[i]];
      }
    }
    assert sources[..|sources|] == sources;
    return Some(result);
  }

  lemma ReachParts(a: seq<Point>, b: seq<Point>, all: seq<Point>, core: Box, dim: nat)
    requires a + b <= all && Reach(all, dim) && dim < |core.min| && dim < |core.max|
    ensures Reach(a, dim) && Reach(b, dim) && Reach(a + b, dim)
    ensures Outside(a + b, core, dim) <==> Outside(a, core, dim) || Outside(b, core, dim)
    ensures Outside(a + b, core, dim) ==> Outside(all, core, dim)
  {
    forall i | 0 <= i < |a| ensures a[i] == all[i] { assert (a + b)[i] == all[i]; }
    forall i | 0 <= i < |b|
      ensures b[i] == all[|a| + i] && (a + b)[|a| + i] == b[i] { assert (a + b)[|a| + i] == all[|a| + i]; }
    forall i | 0 <= i < |a + b| ensures (a + b)[i] == all[i] {}
  }

  lemma {:induction false} ArrivalsPrefix(gid: int, sources: seq<int>, inbox: map<int, seq<Point>>, i: nat)
    requires forall k :: 0 <= k < |sources| && sources[k] != gid ==> sources[k] in inbox
    requires i <= |sources|
    ensures Arrivals(gid, sources[..i], inbox) <= Arrivals(gid, sources, inbox)
    decreases |sources|
  {
    if i < |sources| {
      var n := |sources| - 1;
      ArrivalsPrefix(gid, sources[..n], inbox, i);
      assert sources[..n][..i] == sources[..i];
    } else {
      assert sources[..i] == sources;
    }
  }

  // ---------- sides ----------

  lemma {:induction false} SideMembers(points: seq<Point>, dim: nat, split: real, low: bool)
    requires Reach(points, dim)
    ensures Reach(Side(points, dim, split, low), dim)
    ensures forall x :: x in Side(points, dim, split, low) ==> x in points && (dim < |x| && ((x[dim] < split) == low))
  {
    if points != [] {
      SideMembers(points[..|points| - 1], dim, split, low);
    }
  }

  /** The two sides together are the points again. */
  lemma {:induction false} SidesTogether(points: seq<Point>, dim: nat, split: real)
    requires Reach(points, dim)
    ensures multiset(Side(points, dim, split, true)) + multiset(Side(points, dim, split, false)) == multiset(points)
  {
    if points != [] {
      var less := points[..|points| - 1];
      SidesTogether(less, dim, split);
      TwoWays(points, Side(less, dim, split, true), Side(less, dim, split, false), points[|points| - 1][dim] < split,
              Side(points, dim, split, true), Side(points, dim, split, false));
    }
  }

  lemma SideInside(points: seq<Point>, core: Box, dim: nat, split: real, low: bool)
    requires AllInside(points, core) && dim < |core.min| == |core.max| && Reach(points, dim)
    ensures AllInside(Side(points, dim, split, low), Half(core, split, dim, low))
  {
    SideMembers(points, dim, split, low);
    forall x | x in Side(points, dim, split, low) ensures Inside(x, Half(core, split, dim, low)) {
      assert Inside(x, core);
    }
  }

  // ---------- all blocks ----------

  ghost predicate PointsOk(p: Partners, f: Forest, points: seq<seq<Point>>) {
    |points| == |f.cores| == Volume(p.divs) && forall a :: p.Block(a) ==> AllInside(points[a], f.cores[a])
  }

  lemma PointsReach(p: Partners, f: Forest, points: seq<seq<Point>>, dim: nat, dims: nat, a: int)
    requires Shape(p, f, dims) && PointsOk(p, f, points) && p.Block(a) && dim < dims
    ensures Reach(points[a], dim)
  {
    assert Proper(f.cores[a], dims);
    forall i | 0 <= i < |points[a]| ensures dim < |points[a][i]| {
      assert Inside(points[a][i], f.cores[a]);
    }
  }

  /** What block a holds after trading: its own points of its half, then its sibling's. */
  ghost function Traded(p: Partners, f: Forest, points: seq<seq<Point>>, r: nat, dim: nat, dims: nat,
          splits: seq<real>, a: int): seq<Point>
    requires Ready(p, f, r, dim, dims, splits) && PointsOk(p, f, points) && p.Block(a)
  {
    SiblingSpec(p, r, a);
    PointsReach(p, f, points, dim, dims, a);
    PointsReach(p, f, points, dim, dims, Sibling(p, r, a));
    Side(points[a], dim, splits[a], Lower(p, r, a)) + Side(points[Sibling(p, r, a)], dim, splits[a], Lower(p, r, a))
  }

  ghost predicate Moved(p: Partners, f: Forest, points: seq<seq<Point>>, r: nat, dim: nat, dims: nat, splits: seq<real>,
                        points': seq<seq<Point>>)
    requires Ready(p, f, r, dim, dims, splits) && PointsOk(p, f, points)
  {
    |points'| == Volume(p.divs) && forall a :: p.Block(a) ==>
        points'[a] == Traded(p, f, points, r, dim, dims, splits, a)
  }

  /** Every block's points stay inside its core. */
  lemma PointsStayInside(p: Partners, f: Forest, points: seq<seq<Point>>, r: nat, dim: nat, dims: nat,
          splits: seq<real>,
                         g: Forest, points': seq<seq<Point>>)
    requires Stepped(p, f, r, dim, dims, splits, g) && PointsOk(p, f, points)
        && Moved(p, f, points, r, dim, dims, splits, points')
    ensures PointsOk(p, g, points')
  {
    forall a | p.Block(a) ensures AllInside(points'[a], g.cores[a]) {
      TradedInside(p, f, points, r, dim, dims, splits, a);
    }
  }

  lemma TradedInside(p: Partners, f: Forest, points: seq<seq<Point>>, r: nat, dim: nat, dims: nat, splits: seq<real>,
          a: int)
    requires Ready(p, f, r, dim, dims, splits) && PointsOk(p, f, points) && p.Block(a)
    ensures AllInside(Traded(p, f, points, r, dim, dims, splits, a), NewCore(p, f, r, dim, dims, splits, a))
  {
    SiblingSpec(p, r, a);
    var s := Sibling(p, r, a);
    assert f.cores[s] == f.cores[a] && Proper(f.cores[a], dims);
    PointsReach(p, f, points, dim, dims, a);
    PointsReach(p, f, points, dim, dims, s);
    SideInside(points[a], f.cores[a], dim, splits[a], Lower(p, r, a));
    SideInside(points[s], f.cores[s], dim, splits[a], Lower(p, r, a));
  }

  // ---------- conservation ----------

  /** A pair of siblings holds the same points together as before. */
  lemma PairKeepsPoints(p: Partners, f: Forest, points: seq<seq<Point>>, r: nat, dim: nat, dims: nat,
          splits: seq<real>, a: int)
    requires Ready(p, f, r, dim, dims, splits) && PointsOk(p, f, points) && p.Block(a)
    ensures p.Block(Sibling(p, r, a))
    ensures multiset(Traded(p, f, points, r, dim, dims, splits, a))
            + multiset(Traded(p, f, points, r, dim, dims, splits, Sibling(p, r, a)))
         == multiset(points[a]) + multiset(points[Sibling(p, r, a)])
  {
    SiblingSpec(p, r, a);
    SiblingOfSibling(p, r, a);
    var s := Sibling(p, r, a);
    assert splits[s] == splits[a];
    PointsReach(p, f, points, dim, dims, a);
    PointsReach(p, f, points, dim, dims, s);
    SidesTogether(points[a], dim, splits[a]);
    SidesTogether(points[s], dim, splits[a]);
  }

  ghost function HeldBy(points: seq<seq<Point>>): int -> seq<Point> {
    a => if 0 <= a < |points| then points[a] else []
  }

  ghost function SiblingOf(p: Partners, r: nat): int -> int
    requires Halving(p) && r < p.Rounds()
  {
    a => if p.Block(a) then Sibling(p, r, a) else a
  }

  predicate Index(a: int, n: nat) {
    0 <= a < n
  }

  ghost function AllPoints(points: seq<seq<Point>>): multiset<Point> {
    Pool(HeldBy(points), set a | 0 <= a < |points| && Index(a, |points|))
  }

  /** The multiset of all points survives an iteration. */
  lemma PointsConserved(p: Partners, f: Forest, points: seq<seq<Point>>, r: nat, dim: nat, dims: nat, splits: seq<real>,
                        points': seq<seq<Point>>)
    requires Ready(p, f, r, dim, dims, splits) && PointsOk(p, f, points)
        && Moved(p, f, points, r, dim, dims, splits, points')
    ensures AllPoints(points') == AllPoints(points)
  {
    var blocks := set a | 0 <= a < |points| && Index(a, |points|);
    forall a | a in blocks
      ensures SiblingOf(p, r)(a) in blocks && SiblingOf(p, r)(a) != a && SiblingOf(p, r)(SiblingOf(p, r)(a)) == a
      ensures multiset(HeldBy(points)(a)) + multiset(HeldBy(points)(SiblingOf(p, r)(a)))
           == multiset(HeldBy(points')(a)) + multiset(HeldBy(points')(SiblingOf(p, r)(a)))
    {
      SiblingSpec(p, r, a);
      SiblingOfSibling(p, r, a);
      PairKeepsPoints(p, f, points, r, dim, dims, splits, a);
    }
    TradingKeepsPool(HeldBy(points), HeldBy(points'), SiblingOf(p, r), blocks);
  }

  // ---------- tiling ----------

  /** Every point of the domain lies in the core of some block of a's class. */
  ghost predicate CoveredBy(p: Partners, f: Forest, r: nat, a: int, x: Point)
    requires p.Valid() && |f.cores| == Volume(p.divs) && p.Block(a)
  {
    exists b :: p.Block(b) && AgreeFrom(p, r, b, a) && Inside(x, f.cores[b])
  }

  /** Different nodes have cores with disjoint interiors. */
  ghost predicate Apart(a: Box, b: Box) {
    exists d :: 0 <= d < |a.min| && d < |a.max| && d < |b.min| && d < |b.max|
        && (a.max[d] <= b.min[d] || b.max[d] <= a.min[d])
  }

  ghost predicate Within(b: Box, domain: Box) {
    && |b.min| == |b.max| == |domain.min| == |domain.max|
    && forall d :: 0 <= d < |b.min| ==> domain.min[d] <= b.min[d] && b.max[d] <= domain.max[d]
  }

  ghost predicate Tiling(p: Partners, f: Forest, r: nat, domain: Box)
    requires p.Valid() && |f.cores| == Volume(p.divs) && r <= p.Rounds()
  {
    && (forall a :: p.Block(a) ==> Within(f.cores[a], domain))
    && (forall a, x :: p.Block(a) && Inside(x, domain) ==> CoveredBy(p, f, r, a, x))
    && (forall a, b :: p.Block(a) && p.Block(b) && !AgreeBelow(p, r, a, b) ==> Apart(f.cores[a], f.cores[b]))
  }

  lemma CoverStep(p: Partners, f: Forest, r: nat, dim: nat, dims: nat, splits: seq<real>, g: Forest, a: int, x: Point)
    requires Stepped(p, f, r, dim, dims, splits, g) && p.Block(a) && CoveredBy(p, f, r, a, x)
    ensures CoveredBy(p, g, r + 1, a, x)
  {
    var b :| p.Block(b) && AgreeFrom(p, r, b, a) && Inside(x, f.cores[b]);
    SiblingSpec(p, r, b);
    var s := Sibling(p, r, b);
    assert Proper(f.cores[b], dims) && f.cores[s] == f.cores[b] && splits[s] == splits[b];
    NewCoreSpec(p, f, r, dim, dims, splits, b);
    NewCoreSpec(p, f, r, dim, dims, splits, s);
    assert AgreeFrom(p, r + 1, b, a);
    AgreeFromTrans(p, r + 1, s, b, a);
    if x[dim] < splits[b] <==> Lower(p, r, b) {
      assert Inside(x, g.cores[b]);
    } else {
      assert Inside(x, g.cores[s]);
    }
  }

  lemma AgreeFromTrans(p: Partners, m: nat, a: int, b: int, c: int)
    requires p.Valid() && AgreeFrom(p, m, a, b) && AgreeFrom(p, m, b, c)
    ensures AgreeFrom(p, m, a, c)
  {
  }

  lemma ApartStep(p: Partners, f: Forest, r: nat, dim: nat, dims: nat, splits: seq<real>, g: Forest, a: int, b: int)
    requires Stepped(p, f, r, dim, dims, splits, g) && p.Block(a) && p.Block(b) && !AgreeBelow(p, r + 1, a, b)
    requires !AgreeBelow(p, r, a, b) ==> Apart(f.cores[a], f.cores[b])
    ensures Apart(g.cores[a], g.cores[b])
  {
    NewCoreSpec(p, f, r, dim, dims, splits, a);
    NewCoreSpec(p, f, r, dim, dims, splits, b);
    if AgreeBelow(p, r, a, b) {
      DigitRange(p, r, a);
      DigitRange(p, r, b);
      assert p.kvs[r].size == 2;
      assert Digit(p, r, a) != Digit(p, r, b);
      assert g.cores[a].max[dim] <= g.cores[b].min[dim] || g.cores[b].max[dim] <= g.cores[a].min[dim];
    } else {
      var d :| 0 <= d < |f.cores[a].min| && d < |f.cores[a].max| && d < |f.cores[b].min| && d < |f.cores[b].max|
               && (f.cores[a].max[d] <= f.cores[b].min[d] || f.cores[b].max[d] <= f.cores[a].min[d]);
      assert g.cores[a].max[d] <= g.cores[b].min[d] || g.cores[b].max[d] <= g.cores[a].min[d];
    }
  }

  /** The cores of each class still tile the domain after an iteration. */
  lemma TilingStep(p: Partners, f: Forest, r: nat, dim: nat, dims: nat, splits: seq<real>, g: Forest, domain: Box)
    requires Stepped(p, f, r, dim, dims, splits, g) && Tiling(p, f, r, domain)
    ensures Tiling(p, g, r + 1, domain)
  {
    forall a | p.Block(a) ensures Within(g.cores[a], domain) {
      NewCoreSpec(p, f, r, dim, dims, splits, a);
      assert Within(f.cores[a], domain);
    }
    forall a, x | p.Block(a) && Inside(x, domain) ensures CoveredBy(p, g, r + 1, a, x) {
      CoverStep(p, f, r, dim, dims, splits, g, a, x);
    }
    forall a, b | p.Block(a) && p.Block(b) && !AgreeBelow(p, r + 1, a, b) ensures Apart(g.cores[a], g.cores[b]) {
      ApartStep(p, f, r, dim, dims, splits, g, a, b);
    }
  }
}
