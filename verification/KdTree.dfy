/** kdtree: from any points in the domain to blocks that own disjoint boxes, hold exactly the points
    of their boxes, and are linked to exactly their neighbors. */
module KdTree {
  import opened Options
  import opened Arith
  import opened Coordinates
  import opened Factoring
  import opened Groups
  import opened Schedules
  import opened KdGeometry
  import opened KdLinks
  import opened KdAdjacency
  import opened KdStep
  import opened KdSchedule
  import opened KdPoints
  import opened KdHistogram
  import opened WeightedSums
  import opened KdExchange
  import opened KdRun

  // ---------- the split is a median, up to the width of a bin ----------

  ghost function TotalOf(local: seq<Histogram>, k: nat): int -> nat {
    a => if 0 <= a < |local| && k <= |local[a]| then Total(local[a][..k]) else 0
  }

  lemma {:induction false} CountNone(inside: int -> bool, local: seq<Histogram>, n: nat)
    requires n <= |local|
    ensures SumWhere(inside, TotalOf(local, 0), n) == 0
  {
    if n > 0 {
      CountNone(inside, local, n - 1);
      assert local[n - 1][..0] == [];
    }
  }

  lemma {:induction false} CountNextBin(inside: int -> bool, local: seq<Histogram>, k: nat, n: nat)
    requires n <= |local| && forall a :: 0 <= a < |local| ==> k < |local[a]|
    ensures SumWhere(inside, TotalOf(local, k + 1), n)
        == SumWhere(inside, TotalOf(local, k), n) + SumWhere(inside, BinOf(local, k), n)
  {
    if n > 0 {
      CountNextBin(inside, local, k, n - 1);
      assert local[n - 1][..k + 1][..k] == local[n - 1][..k];
    }
  }

  /** Summing the node's histogram over its first k bins counts the points of all its blocks in them. */
  lemma {:induction false} TotalOfNode(inside: int -> bool, local: seq<Histogram>, hist: Histogram, bins: nat, k: nat)
    requires Sized(local, bins) && |hist| == bins && k <= bins
    requires forall j :: 0 <= j < bins ==> hist[j] == SumWhere(inside, BinOf(local, j), |local|)
    ensures Total(hist[..k]) == SumWhere(inside, TotalOf(local, k), |local|)
  {
    if k == 0 {
      CountNone(inside, local, |local|);
    } else {
      TotalOfNode(inside, local, hist, bins, k - 1);
      CountNextBin(inside, local, k - 1, |local|);
      assert hist[..k][..k - 1] == hist[..k - 1];
    }
  }

  ghost function BelowIn(points: seq<seq<Point>>, dim: nat, split: real): int -> nat {
    a => if 0 <= a < |points| && Reach(points[a], dim) then Below(points[a], dim, split) else 0
  }

  ghost function SizeIn(points: seq<seq<Point>>): int -> nat {
    a => if 0 <= a < |points| then |points[a]| else 0
  }

  /** The points of gid's node below a coordinate, and all of them. */
  ghost function NodeBelow(p: Partners, r: nat, gid: int, points: seq<seq<Point>>, dim: nat, split: real): nat
    requires p.Valid() && r <= p.Rounds() && p.Block(gid)
  {
    SumWhere(InNode(p, r, gid), BelowIn(points, dim, split), |points|)
  }

  ghost function NodeSize(p: Partners, r: nat, gid: int, points: seq<seq<Point>>): nat
    requires p.Valid() && r <= p.Rounds() && p.Block(gid)
  {
    SumWhere(InNode(p, r, gid), SizeIn(points), |points|)
  }

  /** The split is an interior bin boundary; at most half of the node's points are below it, and more
      than half below the next boundary, unless it had to stay away from an end. */
  ghost predicate MedianSplit(p: Partners, f: Forest, points: seq<seq<Point>>, r: nat, dim: nat, bins: nat, a: int,
          split: real)
    requires p.Valid() && r <= p.Rounds() && p.Block(a) && |f.cores| == Volume(p.divs)
    requires dim < |f.cores[a].min| && dim < |f.cores[a].max| && bins > 0
  {
    exists bin: nat ::
      && 0 < bin < bins - 1 && split == SplitAt(f.cores[a], dim, bins, bin)
      && (bin > 1 ==> NodeBelow(p, r, a, points, dim, split) <= NodeSize(p, r, a, points) / 2)
      && (bin < bins - 2 ==> NodeBelow(p, r, a, points, dim, SplitAt(f.cores[a], dim, bins, bin + 1))
                             > NodeSize(p, r, a, points) / 2)
  }

  lemma LocalTotals(points: seq<Point>, core: Box, dim: nat, bins: nat, hist: Histogram, k: nat)
    requires LocalCounts(points, core, dim, bins, hist) && AllInside(points, core) && k < bins
    ensures Total(hist[..k]) == Below(points, dim, SplitAt(core, dim, bins, k))
    ensures Total(hist[..bins]) == |points|
  {
    TotalsForWidth(points, core, dim, bins, hist, Width(core, dim, bins), k);
  }

  lemma TotalsForWidth(points: seq<Point>, core: Box, dim: nat, bins: nat, hist: Histogram, width: real, k: nat)
    requires AllInside(points, core) && Reach(points, dim) && dim < |core.min| && k < bins == |hist| && width > 0.0
    requires forall l :: 0 <= l < bins ==> hist[l] == CountIn(points, dim, core.min[dim], width, bins, l)
    ensures Total(hist[..k]) == Below(points, dim, Boundary(core.min[dim], width, k))
    ensures Total(hist[..bins]) == |points|
  {
    forall i | 0 <= i < |points| ensures points[i][dim] >= core.min[dim] {
      assert Inside(points[i], core);
    }
    HistogramCounts(hist, points, dim, core.min[dim], width, k);
    assert hist[..bins] == hist;
  }

  ghost predicate Counted(p: Partners, f: Forest, points: seq<seq<Point>>, r: nat, dim: nat, bins: nat,
          local: seq<Histogram>, hists: seq<Histogram>)
    requires p.Valid() && r <= p.Rounds()
  {
    && PointsOk(p, f, points) && NodeHistograms(p, r, bins, local, hists)
    && forall a :: p.Block(a) ==> LocalCounts(points[a], f.cores[a], dim, bins, local[a])
  }

  lemma NodeTotals(p: Partners, f: Forest, points: seq<seq<Point>>, r: nat, dim: nat, dims: nat, bins: nat,
                   local: seq<Histogram>, hists: seq<Histogram>, a: int, k: nat)
    requires p.Valid() && r <= p.Rounds() && Shape(p, f, dims) && SameCores(p, f, r) && p.Block(a) && dim < dims
    requires Counted(p, f, points, r, dim, bins, local, hists) && k < bins
    requires dim < |f.cores[a].min| && dim < |f.cores[a].max|
    ensures Total(hists[a][..k]) == NodeBelow(p, r, a, points, dim, SplitAt(f.cores[a], dim, bins, k))
    ensures Total(hists[a]) == NodeSize(p, r, a, points)
  {
    var inside, split := InNode(p, r, a), SplitAt(f.cores[a], dim, bins, k);
    forall b | 0 <= b < |local| && inside(b)
      ensures TotalOf(local, k)(b) == BelowIn(points, dim, split)(b) && TotalOf(local, bins)(b) == SizeIn(points)(b)
    {
      assert f.cores[b] == f.cores[a];
      LocalTotals(points[b], f.cores[b], dim, bins, local[b], k);
    }
    TotalOfNode(inside, local, hists[a], bins, k);
    TotalOfNode(inside, local, hists[a], bins, bins);
    SumWhereSame(inside, inside, TotalOf(local, k), BelowIn(points, dim, split), |local|);
    SumWhereSame(inside, inside, TotalOf(local, bins), SizeIn(points), |local|);
    assert hists[a][..bins] == hists[a];
  }

  /** What Passes says about the bin that is used. */
  lemma BinIsMedian(hist: Histogram, at: nat)
    requires 3 <= |hist| < SIZE_T && Passes(hist, at)
    ensures var bin := SplitIndex(hist, at);
            && 0 < bin < |hist| - 1
            && (bin > 1 ==> Total(hist[..bin]) <= Total(hist) / 2)
            && (bin < |hist| - 2 ==> Total(hist[..bin + 1]) > Total(hist) / 2)
  {
    if at == 0 {
      TotalMonotone(hist, 1, 2);
    } else if at >= |hist| - 1 {
      TotalMonotone(hist, |hist| - 2, at);
    }
  }

  lemma SplitIsMedian(p: Partners, f: Forest, points: seq<seq<Point>>, r: nat, dim: nat, dims: nat, bins: nat,
                      local: seq<Histogram>, hists: seq<Histogram>, a: int, split: real)
    requires p.Valid() && r <= p.Rounds() && Shape(p, f, dims) && SameCores(p, f, r) && p.Block(a) && dim < dims
        && 3 <= bins < SIZE_T
    requires Counted(p, f, points, r, dim, bins, local, hists) && Chosen(hists[a], f.cores[a], dim, split)
    ensures dim < |f.cores[a].min| && dim < |f.cores[a].max| && MedianSplit(p, f, points, r, dim, bins, a, split)
  {
    var at: nat :| Passes(hists[a], at) && split == SplitAt(f.cores[a], dim, bins, SplitIndex(hists[a], at));
    BinIsMedian(hists[a], at);
    var bin: nat := SplitIndex(hists[a], at);
    NodeTotals(p, f, points, r, dim, dims, bins, local, hists, a, bin);
    NodeTotals(p, f, points, r, dim, dims, bins, local, hists, a, bin + 1);
  }

  // ---------- one iteration ----------

  /** All a block carries along: its core, its link and its points. */
  datatype Blocks = Blocks(forest: Forest, points: seq<seq<Point>>)

  lemma SplitsAreMedians(p: Partners, f: Forest, points: seq<seq<Point>>, r: nat, dim: nat, dims: nat, bins: nat,
                         local: seq<Histogram>, hists: seq<Histogram>, splits: seq<real>)
    requires p.Valid() && r <= p.Rounds() && Shape(p, f, dims) && SameCores(p, f, r) && dim < dims && 3 <= bins < SIZE_T
    requires Counted(p, f, points, r, dim, bins, local, hists) && |splits| == Volume(p.divs)
    requires forall a :: p.Block(a) ==> Chosen(hists[a], f.cores[a], dim, splits[a])
    ensures MedianSplits(p, f, points, r, dim, bins, splits)
  {
    forall a | p.Block(a) ensures MedianAt(p, f, points, r, dim, bins, splits, a) {
      SplitIsMedian(p, f, points, r, dim, dims, bins, local, hists, a, splits[a]);
    }
  }

  ghost predicate MedianAt(p: Partners, f: Forest, points: seq<seq<Point>>, r: nat, dim: nat, bins: nat,
          splits: seq<real>, a: int)
    requires p.Valid() && r <= p.Rounds() && |f.cores| == |splits| == Volume(p.divs) && p.Block(a)
  {
    dim < |f.cores[a].min| && dim < |f.cores[a].max| && bins > 0
        && MedianSplit(p, f, points, r, dim, bins, a, splits[a])
  }

  ghost predicate MedianSplits(p: Partners, f: Forest, points: seq<seq<Point>>, r: nat, dim: nat, bins: nat,
          splits: seq<real>)
    requires p.Valid() && r <= p.Rounds() && |f.cores| == |splits| == Volume(p.divs)
  {
    forall a :: p.Block(a) ==> MedianAt(p, f, points, r, dim, bins, splits, a)
  }

  lemma SteppedBy(p: Partners, f: Forest, r: nat, dim: nat, dims: nat, splits: seq<real>, g: Forest)
    requires Ready(p, f, r, dim, dims, splits) && |g.cores| == Volume(p.divs)
    requires forall a :: p.Block(a) ==> g.cores[a] == NewCore(p, f, r, dim, dims, splits, a)
    requires g.links == NewLinks(p, f, r, dim, dims, splits)
    ensures Stepped(p, f, r, dim, dims, splits, g)
  {
  }

  lemma CoresAreNew(p: Partners, f: Forest, points: seq<seq<Point>>, r: nat, dim: nat, dims: nat, splits: seq<real>,
                    cores: seq<Box>, kept: seq<seq<Point>>, outboxes: seq<map<int, seq<Point>>>)
    requires Ready(p, f, r, dim, dims, splits) && PointsOk(p, f, points)
    requires AllSorted(p, f, points, r, dim, dims, splits, cores, kept, outboxes)
    ensures |cores| == Volume(p.divs) && forall a :: p.Block(a) ==> cores[a] == NewCore(p, f, r, dim, dims, splits, a)
  {
    forall a | p.Block(a) ensures cores[a] == NewCore(p, f, r, dim, dims, splits, a) {
      assert Sorted(p, f, points, r, dim, dims, a, splits[a], cores[a], kept[a], outboxes[a]);
    }
  }

  // ---------- the whole construction ----------

  /** What holds after r iterations. */
  ghost predicate KdInv(p: Partners, b: Blocks, r: nat, dims: nat, domain: Box, all: multiset<Point>)
    requires p.Valid() && r <= p.Rounds()
  {
    && Inv(p, b.forest, r, dims) && PointsOk(p, b.forest, b.points)
    && Tiling(p, b.forest, r, domain) && AllPoints(b.points) == all
  }

  lemma KdInvStep(p: Partners, b: Blocks, r: nat, dim: nat, dims: nat, splits: seq<real>, b': Blocks, domain: Box,
          all: multiset<Point>)
    requires p.Valid() && r < p.Rounds() && KdInv(p, b, r, dims, domain, all)
    requires Stepped(p, b.forest, r, dim, dims, splits, b'.forest)
        && Moved(p, b.forest, b.points, r, dim, dims, splits, b'.points)
    ensures KdInv(p, b', r + 1, dims, domain, all)
  {
    IterationKeepsInv(p, b.forest, r, dim, dims, splits, b'.forest);
    PointsStayInside(p, b.forest, b.points, r, dim, dims, splits, b'.forest, b'.points);
    TilingStep(p, b.forest, r, dim, dims, splits, b'.forest, domain);
    PointsConserved(p, b.forest, b.points, r, dim, dims, splits, b'.points);
  }

  lemma KdInvInit(p: Partners, dims: nat, domain: Box, points: seq<seq<Point>>)
    requires p.Valid() && Proper(domain, dims) && |points| == Volume(p.divs)
    requires forall a :: p.Block(a) ==> AllInside(points[a], domain)
    ensures KdInv(p, Blocks(Forest(seq(|points|, _ => domain), seq(|points|, _ => [])), points), 0, dims, domain,
        AllPoints(points))
  {
    var f := Forest(seq(|points|, _ => domain), seq(|points|, _ => []));
    forall a, b | p.Block(a) && p.Block(b) && AgreeFrom(p, 0, b, a) ensures a == b {
      DigitsIdentify(p, b, a);
    }
    forall a, x | p.Block(a) && Inside(x, domain) ensures CoveredBy(p, f, 0, a, x) {
      assert AgreeFrom(p, 0, a, a) && Inside(x, f.cores[a]);
    }
  }

  lemma FactorsOfEven(m: nat)
    requires m >= 1
    ensures Factors(2, 2 * m) == [2] + Factors(2, m)
  {
    var n := 2 * m;
    assert LargestDivisor(n, 2) == 2 && n / 2 == m;
  }

  /** Factoring a power of two by two gives nothing but twos. */
  lemma {:induction false} FactorsOfPow2(R: nat)
    ensures Pow2(R) >= 1 && |Factors(2, Pow2(R))| == R
    ensures forall i :: 0 <= i < R ==> Factors(2, Pow2(R))[i] == 2
  {
    if R > 0 {
      FactorsOfPow2(R - 1);
      FactorsOfEven(Pow2(R - 1));
    }
  }

  lemma {:induction false} InterleaveOne(fs: seq<seq<nat>>, t: nat)
    requires |fs| == 1 && t <= |fs[0]|
    ensures |Interleave(fs, t)| == |fs[0]| - t
    ensures forall i :: 0 <= i < |fs[0]| - t ==> Interleave(fs, t)[i] == DimK(0, fs[0][t + i])
    decreases |fs[0]| - t
  {
    InterleaveUnfold(fs, t);
    if t < |fs[0]| {
      assert Pass(fs, t, 1) == [];
      assert Pass(fs, t, 0) == [DimK(0, fs[0][t])];
      InterleaveOne(fs, t + 1);
    }
  }

  /** KDTreePartners' constructor: contiguous histogram partners and non-contiguous swap partners. */
  method MakePartners(nblocks: nat, ghost R: nat) returns (h: Partners, p: Partners)
    requires nblocks == Pow2(R)
    ensures KdPartners(h, p) && p.Rounds() == R && Volume(p.divs) == nblocks
  {
    FactorsOfPow2(R);
    h := FromDivisions([nblocks], 2, true);
    p := FromDivisions([nblocks], 2, false);
    InterleaveOne(AllFactors(2, [nblocks]), 0);
    HalvingBlocks(p);
  }

  /** What the construction promises: the boxes tile the domain with disjoint interiors, every block
      holds points of its box only, no point is lost or duplicated, and links are symmetric and name
      exactly the other blocks whose closed boxes touch, with their true bounds. */
  ghost predicate Built(b: Blocks, nblocks: nat, dims: nat, domain: Box) {
    && |b.points| == |b.forest.cores| == |b.forest.links| == nblocks
    && (forall a :: 0 <= a < nblocks ==>
          Proper(b.forest.cores[a], dims) && Within(b.forest.cores[a], domain)
              && AllInside(b.points[a], b.forest.cores[a]))
    && (forall x: Point :: Inside(x, domain) ==> exists a :: 0 <= a < nblocks && Inside(x, b.forest.cores[a]))
    && (forall a, c :: 0 <= a < nblocks && 0 <= c < nblocks && a != c ==> Apart(b.forest.cores[a], b.forest.cores[c]))
    && (forall a, c :: 0 <= a < nblocks && 0 <= c < nblocks ==> LinkedIffTouching(b.forest, a, c))
    && (forall a, e :: 0 <= a < nblocks && e in b.forest.links[a] ==> EntryTrue(b.forest, nblocks, dims, a, e))
  }

  ghost predicate LinkedIffTouching(f: Forest, a: int, c: int)
    requires 0 <= a < |f.links| == |f.cores| && 0 <= c < |f.cores|
  {
    && |f.cores[a].min| == |f.cores[a].max| == |f.cores[c].min| == |f.cores[c].max|
    && (Names(f.links[a], c) <==> a != c && Touch(f.cores[a], f.cores[c]))
  }

  ghost predicate EntryTrue(f: Forest, nblocks: nat, dims: nat, a: int, e: Entry)
    requires |f.links| == |f.cores| == nblocks && 0 <= a < nblocks
  {
    && 0 <= e.gid < nblocks && e.bounds == f.cores[e.gid] && HasEntry(f.links[e.gid], a, Neg(e.dir))
    && |e.dir| == |f.cores[a].min| == |f.cores[a].max| == |f.cores[e.gid].min| == |f.cores[e.gid].max| == dims
    && exists d :: OnSide(e.dir, f.cores[a], f.cores[e.gid], d)
  }

  /** The direction is one step along dimension d, and the neighbor begins or ends there, as it says, where the block
      ends or begins. */
  ghost predicate OnSide(dir: Dir, a: Box, b: Box, d: int)
    requires |dir| == |a.min| == |a.max| == |b.min| == |b.max|
  {
    StepAlong(dir, d) && if dir[d] == 1 then b.min[d] == a.max[d] else b.max[d] == a.min[d]
  }

  lemma CoversAtEnd(p: Partners, b: Blocks, dims: nat, domain: Box, all: multiset<Point>, x: Point)
    requires p.Valid() && KdInv(p, b, p.Rounds(), dims, domain, all) && Inside(x, domain) && Volume(p.divs) > 0
    ensures exists a :: 0 <= a < Volume(p.divs) && Inside(x, b.forest.cores[a])
  {
    assert p.Block(0);
    assert CoveredBy(p, b.forest, p.Rounds(), 0, x);
  }

  lemma ApartAtEnd(p: Partners, b: Blocks, dims: nat, domain: Box, all: multiset<Point>, a: int, c: int)
    requires p.Valid() && KdInv(p, b, p.Rounds(), dims, domain, all) && p.Block(a) && p.Block(c) && a != c
    ensures Apart(b.forest.cores[a], b.forest.cores[c])
  {
    if AgreeBelow(p, p.Rounds(), a, c) {
      DigitsIdentify(p, a, c);
    }
  }

  lemma EntryAtEnd(p: Partners, b: Blocks, dims: nat, domain: Box, all: multiset<Point>, a: int, e: Entry)
    requires p.Valid() && KdInv(p, b, p.Rounds(), dims, domain, all) && p.Block(a) && e in b.forest.links[a]
    ensures EntryTrue(b.forest, Volume(p.divs), dims, a, e)
  {
    assert EntryOk(p, b.forest, p.Rounds(), dims, a, e);
    assert Proper(b.forest.cores[a], dims) && Proper(b.forest.cores[e.gid], dims);
    var d :| StepAlong(e.dir, d);
    assert OnSide(e.dir, b.forest.cores[a], b.forest.cores[e.gid], d);
  }

  lemma BuiltAtEnd(p: Partners, b: Blocks, dims: nat, domain: Box, all: multiset<Point>)
    requires p.Valid() && KdInv(p, b, p.Rounds(), dims, domain, all) && Volume(p.divs) > 0
    ensures Built(b, Volume(p.divs), dims, domain)
  {
    forall a | 0 <= a < Volume(p.divs)
      ensures Proper(b.forest.cores[a], dims) && Within(b.forest.cores[a], domain)
          && AllInside(b.points[a], b.forest.cores[a])
    {
      assert p.Block(a);
    }
    forall x: Point | Inside(x, domain) ensures exists a :: 0 <= a < Volume(p.divs) && Inside(x, b.forest.cores[a]) {
      CoversAtEnd(p, b, dims, domain, all, x);
    }
    forall a, c | 0 <= a < Volume(p.divs) && 0 <= c < Volume(p.divs) && a != c
      ensures Apart(b.forest.cores[a], b.forest.cores[c])
    {
      ApartAtEnd(p, b, dims, domain, all, a, c);
    }
    forall a, c | 0 <= a < Volume(p.divs) && 0 <= c < Volume(p.divs) ensures LinkedIffTouching(b.forest, a, c) {
      FinalLinks(p, b.forest, dims, a, c);
    }
    forall a, e | 0 <= a < Volume(p.divs) && e in b.forest.links[a]
      ensures EntryTrue(b.forest, Volume(p.divs), dims, a, e)
    {
      EntryAtEnd(p, b, dims, domain, all, a, e);
    }
  }

  // ---------- round after round ----------

  /** What the blocks carry from one round to the next: their boxes and links as of the last update, their
      points, histograms, and what the swap round and the link round have sent. */
  datatype Stage = Stage(forest: Forest, points: seq<seq<Point>>, hists: seq<Histogram>, cores: seq<Box>,
                         kept: seq<seq<Point>>, outboxes: seq<map<int, seq<Point>>>,
                         outgoing: seq<map<int, seq<Message>>>)

  /** Histogram rounds up to position m of iteration i are done. */
  ghost predicate Counting(h: Partners, p: Partners, s: Stage, i: nat, m: nat, dims: nat, bins: nat, domain: Box,
                           all: multiset<Point>, local: seq<Histogram>)
    requires KdPartners(h, p) && i < p.Rounds() && m <= 2 * (p.Rounds() - i) && dims > 0
  {
    && KdInv(p, Blocks(s.forest, s.points), i, dims, domain, all) && HoldsAt(h, i, m, bins, local, s.hists)
    && forall a :: p.Block(a) ==> LocalCounts(s.points[a], s.forest.cores[a], i % dims, bins, local[a])
  }

  /** The swap round of iteration i is done. */
  ghost predicate Swapped(p: Partners, s: Stage, i: nat, dims: nat, bins: nat, domain: Box, all: multiset<Point>,
                          splits: seq<real>)
    requires p.Valid() && i < p.Rounds() && dims > 0
  {
    && KdInv(p, Blocks(s.forest, s.points), i, dims, domain, all) && Ready(p, s.forest, i, i % dims, dims, splits)
    && MedianSplits(p, s.forest, s.points, i, i % dims, bins, splits)
    && AllSorted(p, s.forest, s.points, i, i % dims, dims, splits, s.cores, s.kept, s.outboxes)
  }

  /** The link round of iteration i is done; before are the points the iteration started with. */
  ghost predicate Linking(p: Partners, s: Stage, i: nat, dims: nat, bins: nat, domain: Box, all: multiset<Point>,
                          splits: seq<real>, before: seq<seq<Point>>)
    requires p.Valid() && i < p.Rounds() && dims > 0
  {
    && KdInv(p, Blocks(s.forest, before), i, dims, domain, all) && Ready(p, s.forest, i, i % dims, dims, splits)
    && MedianSplits(p, s.forest, before, i, i % dims, bins, splits)
    && Moved(p, s.forest, before, i, i % dims, dims, splits, s.points) && |s.cores| == Volume(p.divs)
    && (forall a :: p.Block(a) ==> s.cores[a] == NewCore(p, s.forest, i, i % dims, dims, splits, a))
    && forall a :: p.Block(a) ==> HeardAll(p, s.forest, i, i % dims, dims, splits, a, s.outgoing)
  }

  /** `update_links` of all blocks, a round after the splits were sent. */
  method UpdateAll(p: Partners, s: Stage, i: nat, dim: nat, dims: nat, ghost bins: nat, ghost domain: Box,
                   ghost all: multiset<Point>, ghost splits: seq<real>, ghost before: seq<seq<Point>>)
    returns (s': Stage)
    requires Halving(p) && i < p.Rounds() && dims > 0 && dim == i % dims
    requires Linking(p, s, i, dims, bins, domain, all, splits, before)
    ensures KdInv(p, Blocks(s'.forest, s'.points), i + 1, dims, domain, all)
  {
    var links := UpdateRounds(p, s.forest, i, dim, dims, splits, s.cores, s.outgoing);
    SteppedBy(p, s.forest, i, dim, dims, splits, Forest(s.cores, links));
    KdInvStep(p, Blocks(s.forest, before), i, dim, dims, splits, Blocks(Forest(s.cores, links), s.points), domain, all);
    s' := s.(forest := Forest(s.cores, links));
  }

  /** The first round of an iteration. */
  method CountRound(h: Partners, p: Partners, s: Stage, ghost i: nat, dim: nat, dims: nat, bins: nat, ghost domain: Box,
                    ghost all: multiset<Point>)
    returns (res: Option<Stage>, ghost local: seq<Histogram>)
    requires KdPartners(h, p) && i < p.Rounds() && dims > 0 && dim == i % dims && 3 <= bins < SIZE_T
    requires KdInv(p, Blocks(s.forest, s.points), i, dims, domain, all)
    ensures res.Some? && Counting(h, p, res.value, i, 0, dims, bins, domain, all, local)
  {
    var counted := LocalHistograms(p, s.forest, s.points, dim, dims, bins);
    if counted.None? {
      return None, [];
    }
    local := counted.value;
    OwnHistograms(h, i, bins, local);
    res := Some(s.(hists := counted.value));
  }

  method AddRound(h: Partners, p: Partners, s: Stage, ghost i: nat, ghost m: nat, prev: Round, x: Round, dims: nat,
                  bins: nat, ghost domain: Box, ghost all: multiset<Point>, ghost local: seq<Histogram>)
    returns (s': Stage)
    requires KdPartners(h, p) && i < p.Rounds() && 0 < m <= 2 * (p.Rounds() - i) && dims > 0
    requires prev == RoundAt(p.Rounds(), i, m - 1) && x == RoundAt(p.Rounds(), i, m)
    requires Counting(h, p, s, i, m - 1, dims, bins, domain, all, local)
    ensures Counting(h, p, s', i, m, dims, bins, domain, all, local)
  {
    var hists := HistogramRound(h, p, i, m, prev, x, bins, local, s.hists);
    s' := s.(hists := hists);
  }

  lemma AllCounted(h: Partners, p: Partners, s: Stage, i: nat, dims: nat, bins: nat, domain: Box, all: multiset<Point>,
                   local: seq<Histogram>)
    requires KdPartners(h, p) && i < p.Rounds() && dims > 0
    requires Counting(h, p, s, i, 2 * (p.Rounds() - i), dims, bins, domain, all, local)
    ensures NodeHistograms(p, i, bins, local, s.hists)
    ensures Counted(p, s.forest, s.points, i, i % dims, bins, local, s.hists)
  {
    SumsOfNodes(h, p, i, bins, local, s.hists);
  }

  /** The swap round: the node's histogram has come down, every node is split near its median. */
  method SplitRound(h: Partners, p: Partners, s: Stage, i: nat, dim: nat, dims: nat, bins: nat, ghost domain: Box,
                    ghost all: multiset<Point>, ghost local: seq<Histogram>)
    returns (s': Stage, ghost splits: seq<real>)
    requires KdPartners(h, p) && i < p.Rounds() && dims > 0 && dim == i % dims && 3 <= bins < SIZE_T
    requires Counting(h, p, s, i, 2 * (p.Rounds() - i), dims, bins, domain, all, local)
    ensures Swapped(p, s', i, dims, bins, domain, all, splits)
  {
    AllCounted(h, p, s, i, dims, bins, domain, all, local);
    var cores, kept, outboxes;
    splits, cores, kept, outboxes := SwapRounds(p, s.forest, s.points, i, dim, dims, bins, s.hists);
    SplitsAgree(p, s.forest, i, dim, dims, bins, local, s.hists, splits);
    SplitsAreMedians(p, s.forest, s.points, i, dim, dims, bins, local, s.hists, splits);
    s' := s.(cores := cores, kept := kept, outboxes := outboxes);
  }

  /** The link round: the points of the swap round come in, the splits go out. */
  method AnnounceRound(p: Partners, s: Stage, i: nat, dim: nat, dims: nat, ghost bins: nat, ghost domain: Box,
                   ghost all: multiset<Point>, ghost splits: seq<real>)
    returns (res: Option<Stage>)
    requires Halving(p) && i < p.Rounds() && dims > 0 && dim == i % dims
    requires Swapped(p, s, i, dims, bins, domain, all, splits)
    ensures res.Some? && Linking(p, res.value, i, dims, bins, domain, all, splits, s.points)
  {
    var points := DequeueRounds(p, s.forest, s.points, i, dim, dims, splits, s.cores, s.kept, s.outboxes);
    if points.None? {
      return None;
    }
    CoresAreNew(p, s.forest, s.points, i, dim, dims, splits, s.cores, s.kept, s.outboxes);
    var outgoing := LinkRounds(p, s.forest, i, dim, dims, splits, s.cores);
    forall a | p.Block(a) ensures HeardAll(p, s.forest, i, dim, dims, splits, a, outgoing) {
      AllHeard(p, s.forest, i, dim, dims, splits, a, outgoing);
    }
    res := Some(s.(points := points.value, outgoing := outgoing));
  }

  /** Where the blocks stand when the round at position m of iteration i begins; i == R is the end. */
  ghost predicate Standing(h: Partners, p: Partners, s: Stage, i: nat, m: nat, dims: nat, bins: nat, domain: Box,
                           all: multiset<Point>, local: seq<Histogram>, splits: seq<real>, before: seq<seq<Point>>)
    requires KdPartners(h, p) && i <= p.Rounds() && m <= 2 * (p.Rounds() - i) + 1 && (i == p.Rounds() ==> m == 0)
        && dims > 0
  {
    if m == 0 && i == 0 then KdInv(p, Blocks(s.forest, s.points), 0, dims, domain, all)
    else if m == 0 then Linking(p, s, i - 1, dims, bins, domain, all, splits, before)
    else if m <= 2 * (p.Rounds() - i) then Counting(h, p, s, i, m - 1, dims, bins, domain, all, local)
    else Swapped(p, s, i, dims, bins, domain, all, splits)
  }

  /** Round k of the list is position m of iteration i. */
  ghost predicate Here(R: nat, dims: nat, rounds: seq<Round>, roundDims: seq<nat>, k: nat, i: nat, m: nat)
    requires dims > 0
  {
    && i < R && m < 2 * (R - i) + 2 && k < |rounds| == |roundDims|
    && rounds[k] == RoundAt(R, i, m) && roundDims[k] == i % dims
    && (m > 0 ==> k > 0 && rounds[k - 1] == RoundAt(R, i, m - 1))
    && (m == 0 && i > 0 ==> k > 1 && rounds[k - 2] == SwapRound(i - 1))
    && (m == 0 && i == 0 ==> k == 0)
  }

  lemma RoundIs(R: nat, dims: nat, i: nat, m: nat, k: nat)
    requires dims > 0 && i < R && m < 2 * (R - i) + 2 && k == |Iterations(R, i)| + m
    ensures k < |Iterations(R, R)| == |Dims(R, dims, R)|
    ensures Iterations(R, R)[k] == RoundAt(R, i, m) && Dims(R, dims, R)[k] == i % dims
  {
    IterationEnds(R, i);
    IterationsAt(R, dims, R, i, m);
    RoundKind(R, i, m);
  }

  /** The last round but one of the iteration before is its swap round. */
  lemma SwapBefore(R: nat, dims: nat, i: nat)
    requires dims > 0 && 0 < i < R
    ensures var k := |Iterations(R, i)|; 1 < k <= |Iterations(R, R)| && Iterations(R, R)[k - 2] == SwapRound(i - 1)
  {
    IterationEnds(R, i - 1);
    var k := |Iterations(R, i - 1)| + 2 * (R - (i - 1));
    RoundIs(R, dims, i - 1, 2 * (R - (i - 1)), k);
  }

  lemma HereAt(R: nat, dims: nat, rounds: seq<Round>, roundDims: seq<nat>, i: nat, m: nat)
    requires dims > 0 && rounds == Iterations(R, R) && roundDims == Dims(R, dims, R)
    requires i < R && m < 2 * (R - i) + 2
    ensures Here(R, dims, rounds, roundDims, |Iterations(R, i)| + m, i, m)
  {
    var k := |Iterations(R, i)| + m;
    RoundIs(R, dims, i, m, k);
    if m > 0 {
      RoundIs(R, dims, i, m - 1, k - 1);
    } else if i > 0 {
      SwapBefore(R, dims, i);
    }
  }

  /** The update of the links that completes an iteration. */
  method UpdateTo(ghost h: Partners, p: Partners, s: Stage, round: nat, ghost i: nat, dim: nat, dims: nat,
                  ghost bins: nat, ghost domain: Box, ghost all: multiset<Point>, ghost local: seq<Histogram>,
                  ghost splits: seq<real>, ghost before: seq<seq<Point>>)
    returns (s': Stage)
    requires KdPartners(h, p) && round < p.Rounds() && i == round + 1 && dims > 0 && dim == round % dims
    requires Standing(h, p, s, i, 0, dims, bins, domain, all, local, splits, before)
    ensures KdInv(p, Blocks(s'.forest, s'.points), i, dims, domain, all)
  {
    StandingAtSeam(h, p, s, round, dims, bins, domain, all, local, splits, before);
    s' := UpdateAll(p, s, round, dim, dims, bins, domain, all, splits, before);
  }

  lemma StandingAtSeam(h: Partners, p: Partners, s: Stage, r: nat, dims: nat, bins: nat, domain: Box,
                       all: multiset<Point>, local: seq<Histogram>, splits: seq<real>, before: seq<seq<Point>>)
    requires KdPartners(h, p) && r < p.Rounds() && dims > 0
    requires Standing(h, p, s, r + 1, 0, dims, bins, domain, all, local, splits, before)
    ensures Linking(p, s, r, dims, bins, domain, all, splits, before)
  {
  }

  lemma StandingAtStart(h: Partners, p: Partners, s: Stage, dims: nat, bins: nat, domain: Box,
                        all: multiset<Point>, local: seq<Histogram>, splits: seq<real>, before: seq<seq<Point>>)
    requires KdPartners(h, p) && dims > 0
    requires Standing(h, p, s, 0, 0, dims, bins, domain, all, local, splits, before)
    ensures KdInv(p, Blocks(s.forest, s.points), 0, dims, domain, all)
  {
  }

  /** The update of the links that begins all iterations but the first. */
  method UpdateBefore(h: Partners, p: Partners, rounds: seq<Round>, roundDims: seq<nat>, k: nat, s: Stage, ghost i: nat,
                      dims: nat, ghost bins: nat, ghost domain: Box, ghost all: multiset<Point>,
                      ghost local: seq<Histogram>, ghost splits: seq<real>, ghost before: seq<seq<Point>>)
    returns (s': Stage)
    requires KdPartners(h, p) && dims > 0 && Here(p.Rounds(), dims, rounds, roundDims, k, i, 0)
    requires Standing(h, p, s, i, 0, dims, bins, domain, all, local, splits, before)
    ensures KdInv(p, Blocks(s'.forest, s'.points), i, dims, domain, all)
  {
    if k > 0 {
      var prevDim := DimBefore(roundDims[k], dims, i);
      var round := rounds[k - 2].1;
      s' := UpdateTo(h, p, s, round, i, prevDim, dims, bins, domain, all, local, splits, before);
    } else {
      StandingAtStart(h, p, s, dims, bins, domain, all, local, splits, before);
      s' := s;
    }
  }

  /** Where the round leaves the blocks. */
  ghost predicate After(h: Partners, p: Partners, s: Stage, i: nat, m: nat, dims: nat, bins: nat, domain: Box,
                        all: multiset<Point>, local: seq<Histogram>, splits: seq<real>, before: seq<seq<Point>>)
    requires KdPartners(h, p) && i < p.Rounds() && m < 2 * (p.Rounds() - i) + 2 && dims > 0
  {
    if m == 2 * (p.Rounds() - i) + 1 then Standing(h, p, s, i + 1, 0, dims, bins, domain, all, local, splits, before)
    else Standing(h, p, s, i, m + 1, dims, bins, domain, all, local, splits, before)
  }

  /** The dispatch on the kind of round. */
  method RunRound(h: Partners, p: Partners, rounds: seq<Round>, roundDims: seq<nat>, k: nat, s: Stage, ghost i: nat,
                  ghost m: nat, dims: nat, bins: nat, ghost domain: Box, ghost all: multiset<Point>,
                  ghost local: seq<Histogram>, ghost splits: seq<real>, ghost before: seq<seq<Point>>)
    returns (res: Option<Stage>, ghost local': seq<Histogram>, ghost splits': seq<real>, ghost before': seq<seq<Point>>)
    requires KdPartners(h, p) && dims > 0 && 3 <= bins < SIZE_T && Here(p.Rounds(), dims, rounds, roundDims, k, i, m)
    requires Standing(h, p, s, i, m, dims, bins, domain, all, local, splits, before)
    ensures res.Some? && After(h, p, res.value, i, m, dims, bins, domain, all, local', splits', before')
  {
    var x, dim := rounds[k], roundDims[k];
    local', splits', before' := local, splits, before;
    if x.0 && x.1 < 0 {
      res := AnnounceRound(p, s, rounds[k - 1].1, dim, dims, bins, domain, all, splits);
      before' := s.points;
    } else if x.0 {
      var summed := AddRound(h, p, s, i, m, rounds[k - 1], x, dims, bins, domain, all, local);
      var s';
      s', splits' := SplitRound(h, p, summed, x.1, dim, dims, bins, domain, all, local);
      res := Some(s');
    } else if x.1 == 0 {
      var s' := UpdateBefore(h, p, rounds, roundDims, k, s, i, dims, bins, domain, all, local, splits, before);
      res, local' := CountRound(h, p, s', i, dim, dims, bins, domain, all);
    } else {
      var s' := AddRound(h, p, s, i, m, rounds[k - 1], x, dims, bins, domain, all, local);
      res := Some(s');
    }
  }

  /** k rounds of the list lead to position m of iteration i. */
  ghost predicate Position(R: nat, k: nat, i: nat, m: nat) {
    i <= R && m <= 2 * (R - i) + 1 && (i == R ==> m == 0) && k == |Iterations(R, i)| + m
  }

  ghost predicate Listed(R: nat, dims: nat, rounds: seq<Round>, roundDims: seq<nat>)
    requires dims > 0
  {
    rounds == Iterations(R, R) && roundDims == Dims(R, dims, R)
  }

  /** The next position, and where it is in the list. */
  lemma NextPosition(R: nat, dims: nat, rounds: seq<Round>, roundDims: seq<nat>, k: nat, i: nat, m: nat)
    returns (i': nat, m': nat)
    requires dims > 0 && Listed(R, dims, rounds, roundDims) && k < |rounds| && Position(R, k, i, m)
    ensures Here(R, dims, rounds, roundDims, k, i, m)
    ensures i' == (if m == 2 * (R - i) + 1 then i + 1 else i) && m' == (if m == 2 * (R - i) + 1 then 0 else m + 1)
    ensures Position(R, k + 1, i', m')
  {
    HereAt(R, dims, rounds, roundDims, i, m);
    IterationEnds(R, i);
    if m == 2 * (R - i) + 1 { i', m' := i + 1, 0; } else { i', m' := i, m + 1; }
  }

  /** Only the end of the last iteration is the end of the list. */
  lemma AtTheEnd(R: nat, dims: nat, rounds: seq<Round>, roundDims: seq<nat>, i: nat, m: nat)
    requires dims > 0 && Listed(R, dims, rounds, roundDims) && R > 0 && Position(R, |rounds|, i, m)
    ensures i == R && Ends(R, dims, rounds, roundDims)
  {
    IterationEnds(R, R - 1);
    HereAt(R, dims, rounds, roundDims, R - 1, 3);
    if i < R {
      HereAt(R, dims, rounds, roundDims, i, m);
    }
  }

  ghost predicate Ends(R: nat, dims: nat, rounds: seq<Round>, roundDims: seq<nat>)
    requires dims > 0
  {
    && |rounds| == |roundDims| && |rounds| > 1 && rounds[|rounds| - 2] == SwapRound(R - 1)
    && roundDims[|rounds| - 1] == (R - 1) % dims
  }

  /** The rounds of the list, one after another. */
  method RunRounds(h: Partners, p: Partners, rounds: seq<Round>, roundDims: seq<nat>, s: Stage, dims: nat, bins: nat,
                   ghost domain: Box, ghost all: multiset<Point>, ghost local: seq<Histogram>,
                   ghost splits: seq<real>, ghost before: seq<seq<Point>>)
    returns (res: Option<Stage>, ghost local': seq<Histogram>, ghost splits': seq<real>, ghost before': seq<seq<Point>>)
    requires KdPartners(h, p) && p.Rounds() > 0 && dims > 0 && 3 <= bins < SIZE_T
        && Listed(p.Rounds(), dims, rounds, roundDims)
    requires Standing(h, p, s, 0, 0, dims, bins, domain, all, local, splits, before)
    ensures res.Some?
    ensures Standing(h, p, res.value, p.Rounds(), 0, dims, bins, domain, all, local', splits', before')
  {
    var current := s;
    ghost var i, m := 0, 0;
    local', splits', before' := local, splits, before;
    for k := 0 to |rounds|
      invariant Position(p.Rounds(), k, i, m)
      invariant Standing(h, p, current, i, m, dims, bins, domain, all, local', splits', before')
    {
      ghost var i', m' := NextPosition(p.Rounds(), dims, rounds, roundDims, k, i, m);
      var next;
      next, local', splits', before' :=
        RunRound(h, p, rounds, roundDims, k, current, i, m, dims, bins, domain, all, local', splits', before');
      if next.None? {
        return None, local', splits', before';
      }
      current, i, m := next.value, i', m';
    }
    AtTheEnd(p.Rounds(), dims, rounds, roundDims, i, m);
    res := Some(current);
  }

  lemma LastPosition(R: nat, dims: nat, rounds: seq<Round>, roundDims: seq<nat>)
    requires dims > 0 && R > 0 && Listed(R, dims, rounds, roundDims)
    ensures Ends(R, dims, rounds, roundDims)
  {
    AtTheEnd(R, dims, rounds, roundDims, R, 0);
  }

  /** The update of the links after the last round. */
  method UpdateAfter(h: Partners, p: Partners, rounds: seq<Round>, roundDims: seq<nat>, s: Stage, dims: nat,
                     ghost bins: nat, ghost domain: Box, ghost all: multiset<Point>, ghost local: seq<Histogram>,
                     ghost splits: seq<real>, ghost before: seq<seq<Point>>)
    returns (b: Blocks)
    requires KdPartners(h, p) && p.Rounds() > 0 && dims > 0 && Ends(p.Rounds(), dims, rounds, roundDims)
    requires Standing(h, p, s, p.Rounds(), 0, dims, bins, domain, all, local, splits, before)
    ensures KdInv(p, b, p.Rounds(), dims, domain, all)
  {
    var round, dim := rounds[|rounds| - 2].1, roundDims[|rounds| - 1];
    var end := UpdateTo(h, p, s, round, p.Rounds(), dim, dims, bins, domain, all, local, splits, before);
    b := Blocks(end.forest, end.points);
  }

  /** `reduce`: all rounds of the list, and after them the last update of the links. */
  method Reduce(h: Partners, p: Partners, b: Blocks, dims: nat, bins: nat, ghost domain: Box,
          ghost all: multiset<Point>)
    returns (res: Option<Blocks>)
    requires KdPartners(h, p) && p.Rounds() > 0 && dims > 0 && 3 <= bins < SIZE_T && KdInv(p, b, 0, dims, domain, all)
    ensures res.Some? && KdInv(p, res.value, p.Rounds(), dims, domain, all)
  {
    var rounds, roundDims := BuildRounds(dims, p.Rounds(), 2 * p.Rounds());
    var s := Stage(b.forest, b.points, [], [], [], [], []);
    assert Blocks(s.forest, s.points) == b;
    var last;
    ghost var local, splits, before := [], [], [];
    last, local, splits, before := RunRounds(h, p, rounds, roundDims, s, dims, bins, domain, all, local, splits,
        before);
    if last.None? {
      return None;
    }
    LastPosition(p.Rounds(), dims, rounds, roundDims);
    var end := UpdateAfter(h, p, rounds, roundDims, last.value, dims, bins, domain, all, local, splits, before);
    res := Some(end);
  }

  /** kdtree, for a power of two of blocks and at least three bins, without periodic boundaries: it never
      throws, whatever the points in the domain, and builds what it promises out of exactly those points. */
  method Construct(nblocks: nat, ghost R: nat, dims: nat, domain: Box, points: seq<seq<Point>>, bins: nat)
    returns (res: Option<Blocks>)
    requires nblocks == Pow2(R) && R > 0 && dims > 0 && 3 <= bins < SIZE_T && Proper(domain, dims)
    requires |points| == nblocks && forall a :: 0 <= a < nblocks ==> AllInside(points[a], domain)
    ensures res.Some? && Built(res.value, nblocks, dims, domain)
    ensures AllPoints(res.value.points) == AllPoints(points)
  {
    Pow2Positive(R);
    var h, p := MakePartners(nblocks, R);
    KdInvInit(p, dims, domain, points);
    var start := Blocks(Forest(seq(|points|, _ => domain), seq(|points|, _ => [])), points);
    res := Reduce(h, p, start, dims, bins, domain, AllPoints(points));
    if res.Some? {
      BuiltAtEnd(p, res.value, dims, domain, AllPoints(points));
    }
  }
}
