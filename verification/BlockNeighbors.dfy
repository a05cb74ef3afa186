/** The links that decompose builds, read off the blocks' places in the domain: in which direction a block lies, and
    how often it is moved by the period of a periodic axis. */
module BlockNeighbors {
  import opened Arith
  import opened Options
  import opened Coordinates
  import opened GridAxis
  import opened Decompose

  // ---------- one axis ----------

  /** From the end of a block to the beginning of the next one: nothing for a shared face inside the domain. */
  function Gap(a: Axis, q: int): int {
    if a.shared && q == 0 then 0 else 1
  }

  /** Block t, moved by q periods, begins where block c ends. */
  predicate Follows(a: Axis, c: int, t: int, q: int)
    requires a.n > 0
  {
    (t != c || q != 0) && a.From(t) + q * a.Period() == a.To(c) + Gap(a, q)
  }

  /** Block t, moved by q periods, ends where block c begins. */
  predicate Precedes(a: Axis, c: int, t: int, q: int)
    requires a.n > 0
  {
    (t != c || q != 0) && a.To(t) + q * a.Period() + Gap(a, q) == a.From(c)
  }

  predicate SameCells(a: Axis, c: int, t: int, q: int)
    requires a.n > 0
  {
    q == 0 && a.From(t) == a.From(c) && a.To(t) == a.To(c)
  }

  predicate Beside(a: Axis, c: int, o: int, t: int, q: int)
    requires a.n > 0
  {
    if o == 1 then Follows(a, c, t, q) else if o == -1 then Precedes(a, c, t, q) else SameCells(a, c, t, q)
  }

  /** Blocks begin one after the other, and all but the last end after they begin, or where they begin if they are
      one cell wide. */
  lemma Begins(a: Axis, i: int, j: int)
    requires a.Valid() && 0 <= i < j < a.n
    ensures a.From(i) < a.From(j) && a.From(i) <= a.To(i) && (a.shared ==> a.From(i) < a.To(i))
    ensures j == i + 1 ==> a.To(i) + Gap(a, 0) == a.From(j)
  {
    WidthSpec(a);
    var w := a.Width();
    MulMono(i + 1, j, w);
    assert w * (i + 1) == (i + 1) * w && w * j == j * w && (i + 1) * w == i * w + w && w * i == i * w;
  }

  lemma OnePeriod(a: Axis)
    requires a.Valid()
    ensures a.From(0) + a.Period() == a.To(a.n - 1) + 1
    ensures a.To(a.n - 1) - a.Period() + 1 == a.From(0)
  {
    WidthSpec(a);
  }

  lemma NextAlong(a: Axis, c: int, s: Step)
    requires a.Valid() && 0 <= c < a.n && Along(c, 1, a.n, a.wrap) == Some(s)
    ensures Follows(a, c, s.coord, s.wrap) && !Precedes(a, c, s.coord, s.wrap) && !SameCells(a, c, s.coord, s.wrap)
  {
    BlockInDomain(a, c);
    BlockInDomain(a, s.coord);
    if c < a.n - 1 {
      Begins(a, c, c + 1);
    } else {
      OnePeriod(a);
    }
  }

  lemma PreviousAlong(a: Axis, c: int, s: Step)
    requires a.Valid() && 0 <= c < a.n && Along(c, -1, a.n, a.wrap) == Some(s)
    ensures Precedes(a, c, s.coord, s.wrap) && !Follows(a, c, s.coord, s.wrap) && !SameCells(a, c, s.coord, s.wrap)
  {
    BlockInDomain(a, c);
    BlockInDomain(a, s.coord);
    if c > 0 {
      Begins(a, c - 1, c);
    } else {
      OnePeriod(a);
    }
  }

  /** The direction along an axis tells on which side the neighbor is, and the wrap by how many periods it is moved
      there. */
  lemma AlongSide(a: Axis, c: int, o: int, s: Step)
    requires a.Valid() && 0 <= c < a.n && -1 <= o <= 1 && Along(c, o, a.n, a.wrap) == Some(s)
    ensures o == 1 <==> Follows(a, c, s.coord, s.wrap)
    ensures o == -1 <==> Precedes(a, c, s.coord, s.wrap)
    ensures o == 0 <==> SameCells(a, c, s.coord, s.wrap)
  {
    if o == 1 {
      NextAlong(a, c, s);
    } else if o == -1 {
      PreviousAlong(a, c, s);
    }
  }

  /** An offset leads out of the domain exactly if nothing is there on that side. */
  lemma NobodyThere(a: Axis, c: int, o: int, t: int, q: int)
    requires a.Valid() && 0 <= c < a.n && -1 <= o <= 1 && Along(c, o, a.n, a.wrap).None?
    requires 0 <= t < a.n && (q == 0 || a.wrap)
    ensures !Beside(a, c, o, t, q)
  {
    BlockInDomain(a, t);
    WidthSpec(a);
    if o == 1 {
      if t < c { Begins(a, t, c); }
      BlockInDomain(a, c);
    } else {
      if c < t { Begins(a, c, t); }
    }
  }

  ghost predicate Somebody(a: Axis, c: int, o: int)
    requires a.n > 0
  {
    exists t, q :: 0 <= t < a.n && (q == 0 || a.wrap) && Beside(a, c, o, t, q)
  }

  lemma AlongIffSomebody(a: Axis, c: int, o: int)
    requires a.Valid() && 0 <= c < a.n && -1 <= o <= 1
    ensures Along(c, o, a.n, a.wrap).Some? <==> Somebody(a, c, o)
  {
    var s := Along(c, o, a.n, a.wrap);
    if s.Some? {
      AlongSide(a, c, o, s.value);
      assert Beside(a, c, o, s.value.coord, s.value.wrap);
    } else {
      forall t, q | 0 <= t < a.n && (q == 0 || a.wrap) ensures !Beside(a, c, o, t, q) {
        NobodyThere(a, c, o, t, q);
      }
    }
  }

  // ---------- the link ----------

  /** The axes of the decomposition. */
  ghost predicate AxesOf(g: Grid, axes: seq<Axis>) {
    && g.Valid() && |axes| == |g.divs|
    && forall k :: 0 <= k < |axes| ==> axes[k].Valid() && axes[k].n == g.divs[k] && axes[k].wrap == g.wrap[k]
  }

  /** An entry tells the truth about where the neighbor is along an axis. */
  ghost predicate TrueAlong(a: Axis, c: int, t: int, dir: int, q: int)
    requires a.n > 0
  {
    && 0 <= t < a.n && (q == 0 || a.wrap)
    && (dir == 1 <==> Follows(a, c, t, q)) && (dir == -1 <==> Precedes(a, c, t, q))
    && (dir == 0 <==> SameCells(a, c, t, q))
  }

  /** Every entry of the link of a block: along each axis the neighbor, moved by as many periods as the wrap says,
      begins where the block ends, ends where it begins, or has the same cells, as the direction says. */
  lemma LinkGeometry(g: Grid, axes: seq<Axis>, gid: nat, link: seq<Neighbor>, x: Neighbor, k: nat)
    requires AxesOf(g, axes) && gid < Volume(g.divs) && LinkOf(g, Coords(gid, g.divs), link)
    requires x in link && k < |axes|
    ensures 0 <= x.gid < Volume(g.divs) && |x.dir| == |x.wrapDir| == |axes| && -1 <= x.dir[k] <= 1
    ensures TrueAlong(axes[k], Coords(gid, g.divs)[k], Coords(x.gid, g.divs)[k], x.dir[k], x.wrapDir[k])
  {
    var coords := Coords(gid, g.divs);
    GidOfCoords(gid, g.divs);
    var to :| |to| == |g.divs| && Reached(g, coords, x.dir, to, x.wrapDir) && x.gid == Gid(to, g.divs);
    ReachedBack(g, coords, x.dir, to, x.wrapDir);
    CoordsOfGid(to, g.divs);
    AlongSide(axes[k], coords[k], x.dir[k], Step(to[k], x.wrapDir[k]));
  }

  ghost predicate OnAllSides(g: Grid, axes: seq<Axis>, coords: seq<int>, dir: seq<int>)
    requires AxesOf(g, axes) && |coords| == |dir| == |g.divs|
  {
    forall k :: 0 <= k < |g.divs| ==> Somebody(axes[k], coords[k], dir[k])
  }

  /** The link has an entry for a direction exactly if along every axis there is a block on that side. */
  lemma EveryDirection(g: Grid, axes: seq<Axis>, gid: nat, link: seq<Neighbor>, dir: seq<int>)
    requires AxesOf(g, axes) && gid < Volume(g.divs) && LinkOf(g, Coords(gid, g.divs), link)
    requires |dir| == |g.divs| && IsOffset(dir) && !AllAre(dir, 0)
    ensures (exists x :: x in link && x.dir == dir) <==> OnAllSides(g, axes, Coords(gid, g.divs), dir)
  {
    var coords := Coords(gid, g.divs);
    GidOfCoords(gid, g.divs);
    forall k | 0 <= k < |g.divs|
      ensures Along(coords[k], dir[k], g.divs[k], g.wrap[k]).Some? <==> Somebody(axes[k], coords[k], dir[k])
    {
      AlongIffSomebody(axes[k], coords[k], dir[k]);
    }
    if OnAllSides(g, axes, coords, dir) {
      var x := Entry(g, coords, dir);
      assert x in link;
    }
    forall x | x in link && x.dir == dir ensures OnAllSides(g, axes, coords, dir) {
      assert IsNeighbor(g, coords, x);
    }
  }

  /** The entry for a direction. */
  lemma Entry(g: Grid, coords: seq<int>, dir: seq<int>) returns (x: Neighbor)
    requires g.Valid() && |coords| == |dir| == |g.divs| && IsOffset(dir) && !AllAre(dir, 0)
    requires forall k :: 0 <= k < |g.divs| ==> Along(coords[k], dir[k], g.divs[k], g.wrap[k]).Some?
    ensures IsNeighbor(g, coords, x) && x.dir == dir
  {
    var n := |g.divs|;
    var to := seq(n, k requires 0 <= k < n => Along(coords[k], dir[k], g.divs[k], g.wrap[k]).value.coord);
    var wrapDir := seq(n, k requires 0 <= k < n => Along(coords[k], dir[k], g.divs[k], g.wrap[k]).value.wrap);
    x := Neighbor(Gid(to, g.divs), dir, wrapDir);
    assert Reached(g, coords, dir, to, wrapDir);
  }
}
