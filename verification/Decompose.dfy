/** decompose: the offsets it goes through and the symmetry of the links it builds. */
module Decompose {
  import opened Arith
  import opened Options
  import opened Coordinates

  // ---------- the odometer over {-1, 0, 1}^dim ----------

  function Threes(dim: nat): seq<nat> {
    seq(dim, _ => 3)
  }

  function Shifted(offsets: seq<int>): seq<int> {
    seq(|offsets|, i requires 0 <= i < |offsets| => offsets[i] + 1)
  }

  /** Offsets read as a number in base three. */
  function Number(offsets: seq<int>): int {
    Gid(Shifted(offsets), Threes(|offsets|))
  }

  ghost predicate IsOffset(offsets: seq<int>) {
    forall i :: 0 <= i < |offsets| ==> -1 <= offsets[i] <= 1
  }

  predicate AllAre(v: seq<int>, x: int) {
    forall i :: 0 <= i < |v| ==> v[i] == x
  }

  method All(v: seq<int>, x: int) returns (all: bool)
    ensures all == AllAre(v, x)
  {
    for i := 0 to |v|
      invariant forall j :: 0 <= j < i ==> v[j] == x
    {
      if v[i] != x {
        return false;
      }
    }
    return true;
  }

  lemma NumberSplit(offsets: seq<int>)
    requires offsets != []
    ensures Number(offsets) == offsets[0] + 1 + 3 * Number(offsets[1..])
  {
    assert Shifted(offsets)[1..] == Shifted(offsets[1..]) && Threes(|offsets|)[1..] == Threes(|offsets| - 1);
  }

  /** Setting the first j digits from 1 back to -1 and raising the next one counts one up. */
  lemma {:induction false} CarryUp(offsets: seq<int>, next: seq<int>, j: nat)
    requires j < |offsets| == |next| && next[j] == offsets[j] + 1
    requires forall i :: 0 <= i < j ==> offsets[i] == 1 && next[i] == -1
    requires forall i :: j < i < |offsets| ==> next[i] == offsets[i]
    ensures Number(next) == Number(offsets) + 1
    decreases j
  {
    NumberSplit(offsets);
    NumberSplit(next);
    if j == 0 {
      assert next[1..] == offsets[1..];
    } else {
      CarryUp(offsets[1..], next[1..], j - 1);
    }
  }

  /** The next offset. */
  method NextOffset(offsets: seq<int>) returns (next: seq<int>)
    requires !AllAre(offsets, 1) && |offsets| > 0
    requires forall i :: 0 < i < |offsets| ==> -1 <= offsets[i] <= 1
    requires -2 <= offsets[0] <= 1
    ensures |next| == |offsets| && IsOffset(next) && Number(next) == Number(offsets) + 1
  {
    next := offsets;
    var j := 0;
    while j < |next| && next[j] == 1
      invariant 0 <= j <= |next| == |offsets|
      invariant forall i :: 0 <= i < j ==> next[i] == -1 && offsets[i] == 1
      invariant forall i :: j <= i < |next| ==> next[i] == offsets[i]
    {
      next := next[j := -1];
      j := j + 1;
    }
    next := next[j := next[j] + 1];
    CarryUp(offsets, next, j);
  }

  lemma {:induction false} NumberRange(offsets: seq<int>)
    requires IsOffset(offsets)
    ensures 0 <= Number(offsets) < Volume(Threes(|offsets|))
    ensures Number(offsets) + 1 == Volume(Threes(|offsets|)) <==> AllAre(offsets, 1)
  {
    if offsets != [] {
      NumberSplit(offsets);
      NumberRange(offsets[1..]);
      assert Threes(|offsets|)[1..] == Threes(|offsets| - 1);
      assert AllAre(offsets, 1) <==> offsets[0] == 1 && AllAre(offsets[1..], 1) by {
        if offsets[0] == 1 && AllAre(offsets[1..], 1) {
          forall i | 0 <= i < |offsets| ensures offsets[i] == 1 {
            if i > 0 { assert offsets[i] == offsets[1..][i - 1]; }
          }
        }
      }
    }
  }

  lemma {:induction false} SameNumber(a: seq<int>, b: seq<int>)
    requires |a| == |b| && IsOffset(a) && IsOffset(b) && Number(a) == Number(b)
    ensures a == b
  {
    if a != [] {
      NumberSplit(a);
      NumberSplit(b);
      SameNumber(a[1..], b[1..]);
      assert a == [a[0]] + a[1..] && b == [b[0]] + b[1..];
    }
  }

  /** The start, one before the first offset. */
  lemma StartNumber(dim: nat)
    requires dim > 0
    ensures Number([-2] + seq(dim - 1, _ => -1)) == -1
  {
    var start := [-2] + seq(dim - 1, _ => -1);
    NumberSplit(start);
    assert start[1..] == seq(dim - 1, _ => -1);
    LowestNumber(dim - 1);
  }

  lemma {:induction false} LowestNumber(dim: nat)
    ensures Number(seq(dim, _ => -1)) == 0
  {
    if dim > 0 {
      NumberSplit(seq(dim, _ => -1));
      assert seq(dim, _ => -1)[1..] == seq(dim - 1, _ => -1);
      LowestNumber(dim - 1);
    }
  }

  // ---------- one axis of a neighbor ----------

  datatype Step = Step(coord: int, wrap: int)

  /** Where an offset leads along one axis, unless it leaves the domain. */
  function Along(c: int, o: int, n: nat, periodic: bool): Option<Step> {
    var x := c + o;
    if x < 0 then (if periodic then Some(Step(n - 1, -1)) else None)
    else if x >= n then (if periodic then Some(Step(0, 1)) else None)
    else Some(Step(x, 0))
  }

  /** Going back by the opposite offset leads back, with the opposite wrap. */
  lemma AlongBack(c: int, o: int, n: nat, periodic: bool, s: Step)
    requires 0 <= c < n && -1 <= o <= 1 && Along(c, o, n, periodic) == Some(s)
    ensures 0 <= s.coord < n && Along(s.coord, -o, n, periodic) == Some(Step(c, -s.wrap))
  {
  }

  // ---------- the link ----------

  datatype Grid = Grid(divs: seq<nat>, wrap: seq<bool>) {
    ghost predicate Valid() {
      |divs| == |wrap| > 0 && Positive(divs)
    }
  }

  /** A neighbor in a link: its gid, the direction it lies in, and how it is reached around the domain. */
  datatype Neighbor = Neighbor(gid: int, dir: seq<int>, wrapDir: seq<int>)

  ghost predicate Reached(g: Grid, coords: seq<int>, dir: seq<int>, to: seq<int>, wrapDir: seq<int>)
    requires g.Valid() && |coords| == |dir| == |to| == |wrapDir| == |g.divs|
  {
    forall k :: 0 <= k < |g.divs| ==> Along(coords[k], dir[k], g.divs[k], g.wrap[k]) == Some(Step(to[k], wrapDir[k]))
  }

  /** The neighbor an offset stands for, if it stays in the domain. */
  ghost predicate IsNeighbor(g: Grid, coords: seq<int>, x: Neighbor)
    requires g.Valid() && |coords| == |g.divs|
  {
    && |x.dir| == |x.wrapDir| == |g.divs| && IsOffset(x.dir) && !AllAre(x.dir, 0)
    && exists to :: |to| == |g.divs| && Reached(g, coords, x.dir, to, x.wrapDir) && x.gid == Gid(to, g.divs)
  }

  method NeighborAt(g: Grid, coords: seq<int>, offsets: seq<int>) returns (x: Option<Neighbor>)
    requires g.Valid() && |coords| == |offsets| == |g.divs| && IsOffset(offsets)
    ensures x.Some? ==> x.value.dir == offsets && |x.value.wrapDir| == |offsets|
                        && exists to :: |to| == |g.divs| && Reached(g, coords, offsets, to, x.value.wrapDir)
                            && x.value.gid == Gid(to, g.divs)
    ensures x.None? ==> exists k :: 0 <= k < |g.divs| && Along(coords[k], offsets[k], g.divs[k], g.wrap[k]).None?
  {
    var to, wrapDir := [], [];
    var inbounds := true;
    for k := 0 to |g.divs|
      invariant |to| == |wrapDir| == k
      invariant inbounds ==> forall i :: 0 <= i < k ==>
          Along(coords[i], offsets[i], g.divs[i], g.wrap[i]) == Some(Step(to[i], wrapDir[i]))
      invariant !inbounds ==> exists i :: 0 <= i < k && Along(coords[i], offsets[i], g.divs[i], g.wrap[i]).None?
    {
      var c, w := coords[k] + offsets[k], 0;
      if c < 0 {
        if g.wrap[k] {
          c, w := g.divs[k] - 1, -1;
        } else {
          inbounds := false;
        }
      }
      if c >= g.divs[k] {
        if g.wrap[k] {
          c, w := 0, 1;
        } else {
          inbounds := false;
        }
      }
      to, wrapDir := to + [c], wrapDir + [w];
    }
    if !inbounds {
      return None;
    }
    assert Reached(g, coords, offsets, to, wrapDir);
    var gid := CoordsToGid(to, g.divs);
    x := Some(Neighbor(gid, offsets, wrapDir));
  }

  /** The link lists every neighbor, each direction once. */
  ghost predicate LinkOf(g: Grid, coords: seq<int>, link: seq<Neighbor>)
    requires g.Valid() && |coords| == |g.divs|
  {
    && (forall x :: x in link <==> IsNeighbor(g, coords, x))
    && forall i, j :: 0 <= i < j < |link| ==> link[i].dir != link[j].dir
  }

  /** What has been linked once all offsets below number n have been visited. */
  ghost predicate LinkedBelow(g: Grid, coords: seq<int>, link: seq<Neighbor>, n: int)
    requires g.Valid() && |coords| == |g.divs|
  {
    && (forall x :: x in link <==> IsNeighbor(g, coords, x) && Number(x.dir) < n)
    && forall i, j :: 0 <= i < j < |link| ==> link[i].dir != link[j].dir
  }

  lemma OnlyOne(g: Grid, coords: seq<int>, x: Neighbor, y: Neighbor)
    requires g.Valid() && |coords| == |g.divs| && IsNeighbor(g, coords, x) && IsNeighbor(g, coords, y) && x.dir == y.dir
    ensures x == y
  {
    var s :| |s| == |g.divs| && Reached(g, coords, x.dir, s, x.wrapDir) && x.gid == Gid(s, g.divs);
    var t :| |t| == |g.divs| && Reached(g, coords, y.dir, t, y.wrapDir) && y.gid == Gid(t, g.divs);
    assert s == t && x.wrapDir == y.wrapDir;
  }

  lemma VisitSelf(g: Grid, coords: seq<int>, link: seq<Neighbor>, offsets: seq<int>)
    requires g.Valid() && |coords| == |g.divs| == |offsets| && IsOffset(offsets) && AllAre(offsets, 0)
    requires LinkedBelow(g, coords, link, Number(offsets))
    ensures LinkedBelow(g, coords, link, Number(offsets) + 1)
  {
    forall x | IsNeighbor(g, coords, x) && Number(x.dir) == Number(offsets) ensures false {
      SameNumber(x.dir, offsets);
    }
  }

  lemma VisitOutside(g: Grid, coords: seq<int>, link: seq<Neighbor>, offsets: seq<int>)
    requires g.Valid() && |coords| == |g.divs| == |offsets| && IsOffset(offsets)
    requires exists k :: 0 <= k < |g.divs| && Along(coords[k], offsets[k], g.divs[k], g.wrap[k]).None?
    requires LinkedBelow(g, coords, link, Number(offsets))
    ensures LinkedBelow(g, coords, link, Number(offsets) + 1)
  {
    forall x | IsNeighbor(g, coords, x) && Number(x.dir) == Number(offsets) ensures false {
      SameNumber(x.dir, offsets);
    }
  }

  lemma VisitNeighbor(g: Grid, coords: seq<int>, link: seq<Neighbor>, x: Neighbor)
    requires g.Valid() && |coords| == |g.divs| && IsNeighbor(g, coords, x)
    requires LinkedBelow(g, coords, link, Number(x.dir))
    ensures LinkedBelow(g, coords, link + [x], Number(x.dir) + 1)
  {
    forall y | IsNeighbor(g, coords, y) && Number(y.dir) == Number(x.dir) ensures y == x {
      SameNumber(y.dir, x.dir);
      OnlyOne(g, coords, x, y);
    }
    forall i | 0 <= i < |link| ensures link[i].dir != x.dir {
      assert link[i] in link;
    }
  }

  /** The loop of decompose for one block. */
  method BuildLink(g: Grid, gid: nat) returns (link: seq<Neighbor>)
    requires g.Valid() && gid < Volume(g.divs)
    ensures LinkOf(g, Coords(gid, g.divs), link)
  {
    var coords := GidToCoords(gid, g.divs);
    var dim := |g.divs|;
    var offsets := [-2] + seq(dim - 1, _ => -1);
    StartNumber(dim);
    link := [];
    NothingYet(g, coords);
    var done := All(offsets, 1);
    while !done
      invariant |offsets| == dim && (forall i :: 0 < i < dim ==> -1 <= offsets[i] <= 1) && -2 <= offsets[0] <= 1
      invariant offsets[0] == -2 ==> Number(offsets) == -1
      invariant LinkedBelow(g, coords, link, Number(offsets) + 1)
      invariant done == AllAre(offsets, 1)
      invariant Number(offsets) < Volume(Threes(dim))
      decreases Volume(Threes(dim)) - Number(offsets)
    {
      offsets := NextOffset(offsets);
      NumberRange(offsets);
      done := All(offsets, 1);
      var self := All(offsets, 0);
      if self {
        VisitSelf(g, coords, link, offsets);
      } else {
        var x := NeighborAt(g, coords, offsets);
        if x.None? {
          VisitOutside(g, coords, link, offsets);
        } else {
          VisitNeighbor(g, coords, link, x.value);
          link := link + [x.value];
        }
      }
    }
    AllVisited(g, coords, link, offsets);
  }

  lemma NothingYet(g: Grid, coords: seq<int>)
    requires g.Valid() && |coords| == |g.divs|
    ensures LinkedBelow(g, coords, [], 0)
  {
    forall x | IsNeighbor(g, coords, x) ensures Number(x.dir) >= 0 {
      NumberRange(x.dir);
    }
  }

  lemma AllVisited(g: Grid, coords: seq<int>, link: seq<Neighbor>, offsets: seq<int>)
    requires g.Valid() && |coords| == |g.divs| == |offsets| && AllAre(offsets, 1)
    requires LinkedBelow(g, coords, link, Number(offsets) + 1)
    ensures LinkOf(g, coords, link)
  {
    NumberRange(offsets);
    forall x | IsNeighbor(g, coords, x) ensures Number(x.dir) < Number(offsets) + 1 {
      NumberRange(x.dir);
    }
  }

  // ---------- symmetry ----------

  function Negated(d: seq<int>): seq<int> {
    seq(|d|, i requires 0 <= i < |d| => -d[i])
  }

  lemma ReachedBack(g: Grid, coords: seq<int>, dir: seq<int>, to: seq<int>, wrapDir: seq<int>)
    requires g.Valid() && InRange(coords, g.divs) && |dir| == |to| == |wrapDir| == |g.divs| && IsOffset(dir)
    requires Reached(g, coords, dir, to, wrapDir)
    ensures InRange(to, g.divs) && Reached(g, to, Negated(dir), coords, Negated(wrapDir))
  {
    forall k | 0 <= k < |g.divs|
      ensures 0 <= to[k] < g.divs[k]
      ensures Along(to[k], Negated(dir)[k], g.divs[k], g.wrap[k]) == Some(Step(coords[k], Negated(wrapDir)[k]))
    {
      AlongBack(coords[k], dir[k], g.divs[k], g.wrap[k], Step(to[k], wrapDir[k]));
    }
  }

  /** Links are symmetric: h in direction d, reached around the domain by w, is a neighbor of gid exactly
      when gid in the opposite direction, reached the opposite way around, is a neighbor of h. */
  lemma LinksSymmetric(g: Grid, gid: nat, h: nat, dir: seq<int>, wrapDir: seq<int>)
    requires g.Valid() && gid < Volume(g.divs) && h < Volume(g.divs)
    requires IsNeighbor(g, Coords(gid, g.divs), Neighbor(h, dir, wrapDir))
    ensures IsNeighbor(g, Coords(h, g.divs), Neighbor(gid, Negated(dir), Negated(wrapDir)))
  {
    var coords := Coords(gid, g.divs);
    GidOfCoords(gid, g.divs);
    var to :| |to| == |g.divs| && Reached(g, coords, dir, to, wrapDir) && h == Gid(to, g.divs);
    ReachedBack(g, coords, dir, to, wrapDir);
    CoordsOfGid(to, g.divs);
    assert Coords(h, g.divs) == to;
    var k :| 0 <= k < |dir| && dir[k] != 0;
    assert Negated(dir)[k] != 0;
  }

  lemma NegatedTwice(d: seq<int>)
    ensures Negated(Negated(d)) == d
  {
  }

  /** The two links as built. */
  lemma BuiltLinksSymmetric(g: Grid, gid: nat, h: nat, link: seq<Neighbor>, back: seq<Neighbor>, dir: seq<int>,
          wrapDir: seq<int>)
    requires g.Valid() && gid < Volume(g.divs) && h < Volume(g.divs)
    requires LinkOf(g, Coords(gid, g.divs), link) && LinkOf(g, Coords(h, g.divs), back)
    ensures Neighbor(h, dir, wrapDir) in link <==> Neighbor(gid, Negated(dir), Negated(wrapDir)) in back
  {
    if Neighbor(h, dir, wrapDir) in link {
      LinksSymmetric(g, gid, h, dir, wrapDir);
    }
    if Neighbor(gid, Negated(dir), Negated(wrapDir)) in back {
      LinksSymmetric(g, h, gid, Negated(dir), Negated(wrapDir));
      NegatedTwice(dir);
      NegatedTwice(wrapDir);
    }
  }
}
