/** A whole kd-tree construction: the iterations of the schedule, phase by phase, over all blocks. */
module KdRun {
  import opened Options
  import opened Arith
  import opened Coordinates
  import opened Factoring
  import opened Groups
  import opened Schedules
  import opened KdGeometry
  import opened KdLinks
  import opened KdAdjacency
  import opened KdStep
  import opened KdSchedule
  import opened KdPoints
  import opened KdHistogram
  import opened WeightedSums
  import opened KdExchange

  // ---------- local histograms ----------

  ghost predicate LocalCounts(points: seq<Point>, core: Box, dim: nat, bins: nat, hist: Histogram) {
    && dim < |core.min| && dim < |core.max| && bins > 0 && |hist| == bins && Reach(points, dim)
    && Width(core, dim, bins) > 0.0
    && forall l :: 0 <= l < bins ==> hist[l] == CountIn(points, dim, core.min[dim], Width(core, dim, bins), bins, l)
  }

  /** Round 0 of an iteration; with every point inside its block's core nothing throws. */
  method LocalHistograms(p: Partners, f: Forest, points: seq<seq<Point>>, dim: nat, dims: nat, bins: nat)
    returns (r: Option<seq<Histogram>>)
    requires Shape(p, f, dims) && PointsOk(p, f, points) && dim < dims && bins > 0
    ensures r.Some? && |r.value| == Volume(p.divs)
    ensures forall a :: p.Block(a) ==> LocalCounts(points[a], f.cores[a], dim, bins, r.value[a])
  {
    var hists := [];
    for a := 0 to |points|
      invariant |hists| == a
      invariant forall b :: 0 <= b < a ==> LocalCounts(points[b], f.cores[b], dim, bins, hists[b])
    {
      assert p.Block(a) && Proper(f.cores[a], dims);
      PointsReach(p, f, points, dim, dims, a);
      forall i | 0 <= i < |points[a]| ensures points[a][i][dim] >= f.cores[a].min[dim] {
        assert Inside(points[a][i], f.cores[a]);
      }
      var local := LocalHistogram(points[a], f.cores[a], dim, bins);
      if local.None? {
        return None;
      }
      hists := hists + [local.value];
    }
    r := Some(hists);
  }

  // ---------- the node's split ----------

  ghost predicate NodeHistograms(p: Partners, r: nat, bins: nat, local: seq<Histogram>, hists: seq<Histogram>)
    requires p.Valid() && r <= p.Rounds()
  {
    && |local| == |hists| == Volume(p.divs) && Sized(local, bins) && Sized(hists, bins)
    && forall a, j :: p.Block(a) && 0 <= j < bins ==> hists[a][j] == NodeSum(p, r, a, local, j)
  }

  /** Blocks of one node hold the same sums. */
  lemma SameHistogram(p: Partners, r: nat, bins: nat, local: seq<Histogram>, hists: seq<Histogram>, a: int, b: int)
    requires p.Valid() && r <= p.Rounds() && NodeHistograms(p, r, bins, local, hists)
    requires p.Block(a) && p.Block(b) && AgreeBelow(p, r, a, b)
    ensures hists[a] == hists[b]
  {
    forall c | p.Block(c) ensures InNode(p, r, a)(c) == InNode(p, r, b)(c) {
      if AgreeBelow(p, r, c, a) { AgreeBelowTrans(p, r, c, a, b); }
      if AgreeBelow(p, r, c, b) { AgreeBelowSym(p, r, a, b); AgreeBelowTrans(p, r, c, b, a); }
    }
    forall j | 0 <= j < bins ensures hists[a][j] == hists[b][j] {
      SumWhereSame(InNode(p, r, a), InNode(p, r, b), BinOf(local, j), BinOf(local, j), |local|);
    }
  }

  ghost predicate Chosen(hist: Histogram, core: Box, dim: nat, split: real) {
    && 0 < |hist| < SIZE_T && dim < |core.min| && dim < |core.max|
    && exists at: nat :: Passes(hist, at) && split == SplitAt(core, dim, |hist|, SplitIndex(hist, at))
  }

  lemma ChosenOnce(hist: Histogram, core: Box, dim: nat, s: real, t: real)
    requires Chosen(hist, core, dim, s) && Chosen(hist, core, dim, t)
    ensures s == t
  {
    var i: nat :| Passes(hist, i) && s == SplitAt(core, dim, |hist|, SplitIndex(hist, i));
    var j: nat :| Passes(hist, j) && t == SplitAt(core, dim, |hist|, SplitIndex(hist, j));
    PassesOnce(hist, i, j);
  }

  lemma ChosenInterior(hist: Histogram, core: Box, dim: nat, split: real)
    requires Chosen(hist, core, dim, split) && 3 <= |hist| < SIZE_T && core.min[dim] < core.max[dim]
    ensures core.min[dim] < split < core.max[dim]
  {
    var at: nat :| Passes(hist, at) && split == SplitAt(core, dim, |hist|, SplitIndex(hist, at));
    SplitInterior(hist, core, dim, at);
  }

  /** Every block of a node picks the same split, strictly inside the node's box. */
  lemma SplitsAgree(p: Partners, f: Forest, r: nat, dim: nat, dims: nat, bins: nat, local: seq<Histogram>,
          hists: seq<Histogram>, splits: seq<real>)
    requires p.Valid() && r <= p.Rounds() && Shape(p, f, dims) && SameCores(p, f, r) && dim < dims && 3 <= bins < SIZE_T
    requires NodeHistograms(p, r, bins, local, hists) && |splits| == Volume(p.divs)
    requires forall a :: p.Block(a) ==> Chosen(hists[a], f.cores[a], dim, splits[a])
    ensures SplitsOk(p, f, r, dim, dims, splits)
  {
    forall a, b | p.Block(a) && p.Block(b) && AgreeBelow(p, r, a, b) ensures splits[a] == splits[b] {
      SameHistogram(p, r, bins, local, hists, a, b);
      ChosenOnce(hists[a], f.cores[a], dim, splits[a], splits[b]);
    }
    forall a | p.Block(a) ensures f.cores[a].min[dim] < splits[a] < f.cores[a].max[dim] {
      assert Proper(f.cores[a], dims);
      ChosenInterior(hists[a], f.cores[a], dim, splits[a]);
    }
  }

  // ---------- trading points ----------

  lemma GroupPair(p: Partners, r: nat, a: int)
    requires Halving(p) && r < p.Rounds() && p.Block(a)
    ensures var g := Group(p, r, a);
            && |g| == 2 && g[0] != g[1] && (g[0] == a <==> Lower(p, r, a))
            && g[if Lower(p, r, a) then 0 else 1] == a && g[if Lower(p, r, a) then 1 else 0] == Sibling(p, r, a)
  {
    DivideIsGroup(p, a, true, r);
    DivideIsGroup(p, a, false, r);
    InGroup(p, r, a, a);
    DigitRange(p, r, a);
    SiblingSpec(p, r, a);
  }

  /** What block a has done in the swap round. */
  ghost predicate Sorted(p: Partners, f: Forest, points: seq<seq<Point>>, r: nat, dim: nat, dims: nat, a: int,
                         split: real, core: Box, kept: seq<Point>, outbox: map<int, seq<Point>>)
    requires Halving(p) && r < p.Rounds() && Shape(p, f, dims) && PointsOk(p, f, points) && p.Block(a) && dim < dims
  {
    assert Proper(f.cores[a], dims);
    PointsReach(p, f, points, dim, dims, a);
    && core == Half(f.cores[a], split, dim, Lower(p, r, a))
    && kept == Side(points[a], dim, split, Lower(p, r, a))
    && (forall c :: c in outbox <==> c == Sibling(p, r, a))
    && outbox[Sibling(p, r, a)] == Side(points[a], dim, split, !Lower(p, r, a))
  }

  method SwapBlock(p: Partners, f: Forest, points: seq<seq<Point>>, r: nat, dim: nat, ghost dims: nat, a: int,
          bins: nat, hist: Histogram)
    returns (ghost split: real, core: Box, kept: seq<Point>, outbox: map<int, seq<Point>>)
    requires Halving(p) && r < p.Rounds() && Shape(p, f, dims) && PointsOk(p, f, points) && dim < dims && p.Block(a)
    requires |hist| == bins && 0 < bins < SIZE_T
    ensures Chosen(hist, f.cores[a], dim, split)
    ensures Sorted(p, f, points, r, dim, dims, a, split, core, kept, outbox)
  {
    assert Proper(f.cores[a], dims);
    PointsReach(p, f, points, dim, dims, a);
    GroupPair(p, r, a);
    var targets := FillOutgoing(Swap, p, r, a, []);
    assert targets == Group(p, r, a);
    ghost var at;
    kept, outbox, core, split, at := EnqueueExchange(a, targets, points[a], f.cores[a], dim, bins, hist);
  }

  method SwapRounds(p: Partners, f: Forest, points: seq<seq<Point>>, r: nat, dim: nat, ghost dims: nat, bins: nat,
          hists: seq<Histogram>)
    returns (ghost splits: seq<real>, cores: seq<Box>, kept: seq<seq<Point>>, outboxes: seq<map<int, seq<Point>>>)
    requires Halving(p) && r < p.Rounds() && Shape(p, f, dims) && PointsOk(p, f, points) && dim < dims
        && 0 < bins < SIZE_T
    requires |hists| == Volume(p.divs) && Sized(hists, bins)
    ensures |splits| == |cores| == |kept| == |outboxes| == Volume(p.divs)
    ensures forall a :: p.Block(a) ==> Chosen(hists[a], f.cores[a], dim, splits[a])
    ensures forall a :: p.Block(a) ==> Sorted(p, f, points, r, dim, dims, a, splits[a], cores[a], kept[a], outboxes[a])
  {
    splits, cores, kept, outboxes := [], [], [], [];
    for a := 0 to |points|
      invariant |splits| == |cores| == |kept| == |outboxes| == a
      invariant forall b :: 0 <= b < a ==> Chosen(hists[b], f.cores[b], dim, splits[b])
      invariant forall b :: 0 <= b < a ==>
          Sorted(p, f, points, r, dim, dims, b, splits[b], cores[b], kept[b], outboxes[b])
    {
      var mine, outbox, core;
      ghost var split;
      split, core, mine, outbox := SwapBlock(p, f, points, r, dim, dims, a, bins, hists[a]);
      splits, cores, kept, outboxes := splits + [split], cores + [core], kept + [mine], outboxes + [outbox];
    }
  }

  ghost predicate AllSorted(p: Partners, f: Forest, points: seq<seq<Point>>, r: nat, dim: nat, dims: nat,
          splits: seq<real>,
                            cores: seq<Box>, kept: seq<seq<Point>>, outboxes: seq<map<int, seq<Point>>>)
    requires Ready(p, f, r, dim, dims, splits) && PointsOk(p, f, points)
  {
    && |splits| == |cores| == |kept| == |outboxes| == Volume(p.divs)
    && forall a :: p.Block(a) ==> Sorted(p, f, points, r, dim, dims, a, splits[a], cores[a], kept[a], outboxes[a])
  }

  /** The sibling's share for a completes what a holds after trading, and nothing of it is outside. */
  lemma ShareSpec(p: Partners, f: Forest, points: seq<seq<Point>>, r: nat, dim: nat, dims: nat, splits: seq<real>,
                  cores: seq<Box>, kept: seq<seq<Point>>, outboxes: seq<map<int, seq<Point>>>, a: int)
    requires Ready(p, f, r, dim, dims, splits) && PointsOk(p, f, points) && p.Block(a)
    requires AllSorted(p, f, points, r, dim, dims, splits, cores, kept, outboxes)
    ensures p.Block(Sibling(p, r, a)) && a in outboxes[Sibling(p, r, a)]
    ensures var more := outboxes[Sibling(p, r, a)][a];
            && kept[a] + more == Traded(p, f, points, r, dim, dims, splits, a)
            && Reach(more, dim) && dim < |cores[a].min| && dim < |cores[a].max| && !Outside(more, cores[a], dim)
  {
    var s := Sibling(p, r, a);
    SiblingSpec(p, r, a);
    SiblingOfSibling(p, r, a);
    assert Sorted(p, f, points, r, dim, dims, s, splits[s], cores[s], kept[s], outboxes[s]);
    assert Sorted(p, f, points, r, dim, dims, a, splits[a], cores[a], kept[a], outboxes[a]);
    assert splits[s] == splits[a];
    PointsReach(p, f, points, dim, dims, s);
    TradedInside(p, f, points, r, dim, dims, splits, a);
    NewCoreSpec(p, f, r, dim, dims, splits, a);
    InsideReaches(kept[a], Side(points[s], dim, splits[a], Lower(p, r, a)), cores[a], dim);
  }

  lemma InsideReaches(kept: seq<Point>, more: seq<Point>, core: Box, dim: nat)
    requires AllInside(kept + more, core) && dim < |core.min| && dim < |core.max|
    ensures Reach(more, dim) && !Outside(more, core, dim)
  {
    forall i | 0 <= i < |more| ensures dim < |more[i]| && core.min[dim] <= more[i][dim] <= core.max[dim] {
      assert (kept + more)[|kept| + i] == more[i];
      assert Inside(more[i], core);
    }
  }

  lemma OneArrival(a: int, g: seq<int>, inbox: map<int, seq<Point>>, s: int)
    requires |g| == 2 && a != s && a in g && s in g && s in inbox
    requires forall i :: 0 <= i < |g| && g[i] != a ==> g[i] in inbox
    ensures Arrivals(a, g, inbox) == inbox[s]
  {
    assert g[..1] == [g[0]] && g[..1][..0] == [];
    assert Arrivals(a, g[..1][..0], inbox) == [];
    assert Arrivals(a, g[..1], inbox) == if g[0] == a then [] else inbox[g[0]];
  }

  method SwapInbox(sources: seq<int>, outboxes: seq<map<int, seq<Point>>>, a: int) returns (inbox: map<int, seq<Point>>)
    ensures forall c :: c in sources && 0 <= c < |outboxes| && a in outboxes[c] ==>
        c in inbox && inbox[c] == outboxes[c][a]
  {
    inbox := map c | c in sources && 0 <= c < |outboxes| && a in outboxes[c] :: outboxes[c][a];
  }

  method DequeueBlock(p: Partners, r: nat, dim: nat, core: Box, kept: seq<Point>,
                      outboxes: seq<map<int, seq<Point>>>, a: int)
    returns (res: Option<seq<Point>>)
    requires Halving(p) && r < p.Rounds() && p.Block(a) && |outboxes| == Volume(p.divs) && dim < |core.min|
        && dim < |core.max|
    requires p.Block(Sibling(p, r, a)) && a in outboxes[Sibling(p, r, a)] && Reach(outboxes[Sibling(p, r, a)][a], dim)
    ensures var more := outboxes[Sibling(p, r, a)][a];
        res == if Outside(more, core, dim) then None else Some(kept + more)
  {
    var sources := FillIncoming(Swap, p, r + 1, a, []);
    SwapSources(p, r, a, sources);
    res := DequeuePair(a, Sibling(p, r, a), sources, outboxes, kept, core, dim);
  }

  lemma SwapSources(p: Partners, r: nat, a: int, sources: seq<int>)
    requires Halving(p) && r < p.Rounds() && p.Block(a) && sources == Group(p, r, a)
    ensures |sources| == 2 && a != Sibling(p, r, a)
    ensures (sources[0] == a && sources[1] == Sibling(p, r, a)) || (sources[1] == a && sources[0] == Sibling(p, r, a))
  {
    GroupPair(p, r, a);
    SiblingSpec(p, r, a);
  }

  method DequeuePair(a: int, ghost s: int, sources: seq<int>, outboxes: seq<map<int, seq<Point>>>, kept: seq<Point>,
          core: Box, dim: nat)
    returns (res: Option<seq<Point>>)
    requires |sources| == 2 && a != s && ((sources[0] == a && sources[1] == s) || (sources[1] == a && sources[0] == s))
    requires 0 <= s < |outboxes| && a in outboxes[s] && Reach(outboxes[s][a], dim) && dim < |core.min|
        && dim < |core.max|
    ensures res == if Outside(outboxes[s][a], core, dim) then None else Some(kept + outboxes[s][a])
  {
    assert sources[0] in sources && sources[1] in sources;
    var inbox := SwapInbox(sources, outboxes, a);
    OneArrival(a, sources, inbox, s);
    res := DequeueExchange(a, sources, inbox, kept, core, dim);
  }

  /** The link round's first half, over all blocks: the throw for a stray point is not reached. */
  method DequeueRounds(p: Partners, ghost f: Forest, ghost points: seq<seq<Point>>, r: nat, dim: nat,
          ghost dims: nat, ghost splits: seq<real>,
                       cores: seq<Box>, kept: seq<seq<Point>>, outboxes: seq<map<int, seq<Point>>>)
    returns (res: Option<seq<seq<Point>>>)
    requires Ready(p, f, r, dim, dims, splits) && PointsOk(p, f, points)
    requires AllSorted(p, f, points, r, dim, dims, splits, cores, kept, outboxes)
    ensures res.Some? && Moved(p, f, points, r, dim, dims, splits, res.value)
  {
    var result := [];
    for a := 0 to |kept|
      invariant |result| == a
      invariant forall b :: 0 <= b < a ==> result[b] == Traded(p, f, points, r, dim, dims, splits, b)
    {
      ShareSpec(p, f, points, r, dim, dims, splits, cores, kept, outboxes, a);
      var accepted := DequeueBlock(p, r, dim, cores[a], kept[a], outboxes, a);
      if accepted.None? {
        return None;
      }
      result := result + [accepted.value];
    }
    return Some(result);
  }

  // ---------- links ----------

  ghost predicate Announced(p: Partners, f: Forest, r: nat, dim: nat, dims: nat, splits: seq<real>, a: int,
          outgoing: map<int, seq<Message>>)
    requires Ready(p, f, r, dim, dims, splits) && p.Block(a)
  {
    && (forall i :: 0 <= i < |f.links[a]| ==> f.links[a][i].gid in outgoing)
    && forall g :: g in outgoing ==> outgoing[g] == MessagesTo(f.links[a], splits[a], g)
  }

  method LinkRounds(p: Partners, f: Forest, r: nat, dim: nat, dims: nat, ghost splits: seq<real>, cores: seq<Box>)
    returns (outgoing: seq<map<int, seq<Message>>>)
    requires Ready(p, f, r, dim, dims, splits)
    requires |cores| == Volume(p.divs) && forall a :: p.Block(a) ==> cores[a] == NewCore(p, f, r, dim, dims, splits, a)
    ensures |outgoing| == Volume(p.divs) && forall a :: p.Block(a) ==>
        Announced(p, f, r, dim, dims, splits, a, outgoing[a])
  {
    outgoing := [];
    for a := 0 to |cores|
      invariant |outgoing| == a
      invariant forall b :: 0 <= b < a ==> Announced(p, f, r, dim, dims, splits, b, outgoing[b])
    {
      assert p.Block(a) && Proper(f.cores[a], dims);
      SplitRecovered(f.cores[a], splits[a], dim, Lower(p, r, a), 0);
      var mine := SplitToNeighbors(f.links[a], cores[a], f.cores[a], dims);
      outgoing := outgoing + [mine];
    }
  }

  /** Each neighbor in the link sent exactly one message, with its split and the opposite direction. */
  lemma HeardFrom(p: Partners, f: Forest, r: nat, dim: nat, dims: nat, splits: seq<real>, a: int, i: nat,
          outgoing: map<int, seq<Message>>)
    requires Ready(p, f, r, dim, dims, splits) && Symmetric(p, f) && p.Block(a) && i < |f.links[a]|
        && p.Block(f.links[a][i].gid)
    requires Announced(p, f, r, dim, dims, splits, f.links[a][i].gid, outgoing)
    ensures a in outgoing && outgoing[a] == [(splits[f.links[a][i].gid], Neg(f.links[a][i].dir))]
  {
    var e := f.links[a][i];
    assert HasEntry(f.links[e.gid], a, Neg(e.dir));
    var back :| back in f.links[e.gid] && back.gid == a && back.dir == Neg(e.dir);
    var j :| 0 <= j < |f.links[e.gid]| && f.links[e.gid][j] == back;
    OneMessage(f.links[e.gid], splits[e.gid], j);
  }

  lemma LinkShaped(p: Partners, f: Forest, r: nat, dim: nat, dims: nat, splits: seq<real>, a: int)
    requires Ready(p, f, r, dim, dims, splits) && p.Block(a)
    ensures Shaped(f.links[a], dims) && forall i :: 0 <= i < |f.links[a]| ==> p.Block(f.links[a][i].gid)
  {
    forall i | 0 <= i < |f.links[a]|
      ensures var e := f.links[a][i];
          p.Block(e.gid) && e.gid >= 0 && |e.dir| == |e.bounds.min| == |e.bounds.max| == dims
    {
      assert EntryOk(p, f, r, dims, a, f.links[a][i]);
      assert Proper(f.cores[f.links[a][i].gid], dims);
    }
  }

  method Inbox(link: seq<Entry>, outgoing: seq<map<int, seq<Message>>>, a: int)
    returns (incoming: map<int, seq<Message>>)
    requires forall i :: 0 <= i < |link| ==> 0 <= link[i].gid < |outgoing| && a in outgoing[link[i].gid]
    ensures forall i :: 0 <= i < |link| ==> link[i].gid in incoming && incoming[link[i].gid] == outgoing[link[i].gid][a]
  {
    var near := set i | 0 <= i < |link| :: link[i].gid;
    incoming := map g | g in near && 0 <= g < |outgoing| && a in outgoing[g] :: outgoing[g][a];
  }

  /** Every entry of a's link has its one message waiting. */
  ghost predicate HeardAll(p: Partners, f: Forest, r: nat, dim: nat, dims: nat, splits: seq<real>, a: int,
          outgoing: seq<map<int, seq<Message>>>)
    requires Ready(p, f, r, dim, dims, splits) && p.Block(a)
  {
    forall i :: 0 <= i < |f.links[a]| ==>
      var e := f.links[a][i];
      && 0 <= e.gid < |outgoing| && a in outgoing[e.gid]
      && outgoing[e.gid][a] == [(Heard(p, f, r, dim, dims, splits, a)[i], Neg(e.dir))]
  }

  lemma AllHeard(p: Partners, f: Forest, r: nat, dim: nat, dims: nat, splits: seq<real>, a: int,
          outgoing: seq<map<int, seq<Message>>>)
    requires Ready(p, f, r, dim, dims, splits) && Symmetric(p, f) && p.Block(a)
    requires |outgoing| == Volume(p.divs) && forall b :: p.Block(b) ==>
        Announced(p, f, r, dim, dims, splits, b, outgoing[b])
    ensures HeardAll(p, f, r, dim, dims, splits, a, outgoing)
  {
    LinkShaped(p, f, r, dim, dims, splits, a);
    forall i | 0 <= i < |f.links[a]|
      ensures a in outgoing[f.links[a][i].gid]
      ensures outgoing[f.links[a][i].gid][a] == [(Heard(p, f, r, dim, dims, splits, a)[i], Neg(f.links[a][i].dir))]
    {
      HeardFrom(p, f, r, dim, dims, splits, a, i, outgoing[f.links[a][i].gid]);
    }
  }

  /** The new link in terms of the gid's bit, as update_links computes it. */
  lemma NewLinkByBit(p: Partners, f: Forest, r: nat, dim: nat, dims: nat, splits: seq<real>, a: int)
    requires Ready(p, f, r, dim, dims, splits) && p.Block(a)
    ensures Shaped(f.links[a], dims) && Proper(f.cores[a], dims)
    ensures Lower(p, r, a) <==> BitClear(a, p.Rounds() - 1 - r)
    ensures DistinctGids(f.links[a])
  {
    LinkShaped(p, f, r, dim, dims, splits, a);
    DivideIsGroup(p, a, true, r);
    assert Proper(f.cores[a], dims);
  }

  method HearSplits(p: Partners, f: Forest, r: nat, ghost dim: nat, ghost dims: nat, ghost splits: seq<real>,
                    outgoing: seq<map<int, seq<Message>>>, a: int)
    returns (heard: seq<real>)
    requires Ready(p, f, r, dim, dims, splits) && p.Block(a) && HeardAll(p, f, r, dim, dims, splits, a, outgoing)
    requires DistinctGids(f.links[a])
    ensures heard == Heard(p, f, r, dim, dims, splits, a)
  {
    var incoming := Inbox(f.links[a], outgoing, a);
    heard := ReadSplits(f.links[a], incoming, Heard(p, f, r, dim, dims, splits, a));
  }

  method UpdateBlock(p: Partners, f: Forest, r: nat, dim: nat, dims: nat, ghost splits: seq<real>, core: Box,
                     outgoing: seq<map<int, seq<Message>>>, a: int)
    returns (newLink: seq<Entry>)
    requires Ready(p, f, r, dim, dims, splits) && p.Block(a) && core == NewCore(p, f, r, dim, dims, splits, a)
    requires HeardAll(p, f, r, dim, dims, splits, a, outgoing)
    ensures newLink == NewLink(p, f, r, dim, dims, splits, a)
  {
    NewLinkByBit(p, f, r, dim, dims, splits, a);
    var heard := HearSplits(p, f, r, dim, dims, splits, outgoing, a);
    newLink := UpdateLinks(a, f.links[a], heard, core, f.cores[a], dim, r, p.Rounds(), dims);
  }

  ghost function NewLinks(p: Partners, f: Forest, r: nat, dim: nat, dims: nat, splits: seq<real>): seq<seq<Entry>>
    requires Ready(p, f, r, dim, dims, splits)
  {
    seq(Volume(p.divs), a requires 0 <= a < Volume(p.divs) => NewLink(p, f, r, dim, dims, splits, a))
  }

  method UpdateRounds(p: Partners, f: Forest, r: nat, dim: nat, dims: nat, ghost splits: seq<real>, cores: seq<Box>,
                      outgoing: seq<map<int, seq<Message>>>)
    returns (links: seq<seq<Entry>>)
    requires Ready(p, f, r, dim, dims, splits)
    requires |cores| == Volume(p.divs) && forall a :: p.Block(a) ==> cores[a] == NewCore(p, f, r, dim, dims, splits, a)
    requires forall a :: p.Block(a) ==> HeardAll(p, f, r, dim, dims, splits, a, outgoing)
    ensures links == NewLinks(p, f, r, dim, dims, splits)
  {
    links := [];
    ghost var expected := NewLinks(p, f, r, dim, dims, splits);
    for a := 0 to |cores|
      invariant links == expected[..a]
    {
      var newLink := UpdateBlock(p, f, r, dim, dims, splits, cores[a], outgoing, a);
      links := links + [newLink];
    }
  }
}
