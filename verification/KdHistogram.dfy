/** The histogram rounds at work: adding up vectors along the schedule leaves every block with the sum
    over its node of the tree. */
module KdHistogram {
  import opened Arith
  import opened Coordinates
  import opened Factoring
  import opened Groups
  import opened Schedules
  import opened Counting
  import opened KdLinks
  import opened KdSchedule
  import opened WeightedSums

  type Histogram = seq<nat>

  /** Bin j of every block. */
  function BinOf(hists: seq<Histogram>, j: nat): int -> nat {
    a => if 0 <= a < |hists| && j < |hists[a]| then hists[a][j] else 0
  }

  ghost predicate Sized(hists: seq<Histogram>, bins: nat) {
    forall a :: 0 <= a < |hists| ==> |hists[a]| == bins
  }

  // ---------- one reduction step ----------

  /** `add_histogram`: dequeues and adds up what the incoming partners sent. */
  method AddHistograms(hists: seq<Histogram>, from: seq<int>, bins: nat) returns (histogram: Histogram)
    requires forall k :: 0 <= k < |from| ==> 0 <= from[k] < |hists| && |hists[from[k]]| == bins
    ensures |histogram| == bins
    ensures forall j :: 0 <= j < bins ==> histogram[j] == SumFrom(BinOf(hists, j), from)
  {
    histogram := seq(bins, _ => 0);
    for i := 0 to |from|
      invariant |histogram| == bins
      invariant forall j :: 0 <= j < bins ==>
          histogram[j] + SumFrom(BinOf(hists, j), from[i..]) == SumFrom(BinOf(hists, j), from)
    {
      ghost var before := histogram;
      var hist := hists[from[i]];
      assert from[i..][0] == from[i] && from[i..][1..] == from[i + 1..];
      for j := 0 to |hist|
        invariant |histogram| == bins
        invariant forall l :: 0 <= l < bins ==> histogram[l] == before[l] + if l < j then hist[l] else 0
      {
        histogram := histogram[j := histogram[j] + hist[j]];
      }
    }
  }

  // ---------- the rounds of an iteration ----------

  /** How far down the merge a block must have survived to take part at position m. */
  function Level(R: nat, i: nat, m: nat): nat
    requires i < R && m <= 2 * (R - i)
  {
    if m <= R - i then m else 2 * (R - i) - m
  }

  lemma ActiveAtPosition(h: Partners, p: Partners, i: nat, m: nat, gid: int)
    requires KdPartners(h, p) && p.Block(gid) && i < p.Rounds() && m <= 2 * (p.Rounds() - i)
    ensures IsRound(p.Rounds(), RoundAt(p.Rounds(), i, m))
    ensures KdActive(h, p, RoundAt(p.Rounds(), i, m), gid) <==> MergeActive(h, Level(p.Rounds(), i, m), gid)
  {
  }

  lemma HeardGoingUp(h: Partners, t: nat, gid: int, c: int)
    requires h.Valid() && h.Block(gid) && t < h.Rounds() && MergeActive(h, t + 1, gid) && c in Group(h, t, gid)
    ensures h.Block(c) && MergeActive(h, t, c)
  {
    GroupDistinct(h, t, gid);
    MergeDuality(h, t, c, gid);
  }

  lemma HeardComingDown(h: Partners, t: nat, gid: int, c: int)
    requires h.Valid() && h.Block(gid) && t < h.Rounds() && MergeActive(h, t, gid) && c in Root(h, t, gid)
    ensures h.Block(c) && MergeActive(h, t + 1, c)
  {
    RootSpec(h, t, gid);
    MergeDuality(h, t, gid, c);
  }

  /** Only blocks that were active before are heard from. */
  lemma HeardAreActive(h: Partners, i: nat, m: nat, gid: int, c: int)
    requires h.Valid() && h.Block(gid) && i < h.Rounds() && 0 < m <= 2 * (h.Rounds() - i)
    requires MergeActive(h, Level(h.Rounds(), i, m), gid) && c in HistogramPartners(h, i, m, gid)
    ensures h.Block(c) && MergeActive(h, Level(h.Rounds(), i, m - 1), c)
  {
    if m <= h.Rounds() - i {
      HeardGoingUp(h, m - 1, gid, c);
    } else {
      HeardComingDown(h, 2 * (h.Rounds() - i) - m, gid, c);
    }
  }

  /** The histograms active blocks hold at position m are the sums the schedule promises. */
  ghost predicate HoldsAt(h: Partners, i: nat, m: nat, bins: nat, local: seq<Histogram>, hists: seq<Histogram>)
    requires h.Valid() && i < h.Rounds() && m <= 2 * (h.Rounds() - i)
  {
    && |local| == |hists| == Volume(h.divs) && Sized(local, bins)
    && forall gid :: h.Block(gid) && MergeActive(h, Level(h.Rounds(), i, m), gid) ==>
        HoldsSum(h, i, m, bins, local, hists[gid], gid)
  }

  ghost predicate HoldsSum(h: Partners, i: nat, m: nat, bins: nat, local: seq<Histogram>, hist: Histogram, gid: int)
    requires h.Valid() && i < h.Rounds() && m <= 2 * (h.Rounds() - i) && Sized(local, bins) && h.Block(gid)
  {
    |hist| == bins && forall j :: 0 <= j < bins ==>
        hist[j] == Weighted(HistogramFrom(h, i, m, gid), BinOf(local, j), |local|)
  }

  lemma AddedIsSum(h: Partners, i: nat, m: nat, bins: nat, local: seq<Histogram>, hists: seq<Histogram>, gid: int,
          hist: Histogram)
    requires h.Valid() && i < h.Rounds() && 0 < m <= 2 * (h.Rounds() - i) && h.Block(gid)
    requires HoldsAt(h, i, m - 1, bins, local, hists) && MergeActive(h, Level(h.Rounds(), i, m), gid)
    requires var from := HistogramPartners(h, i, m, gid);
             forall k :: 0 <= k < |from| ==> 0 <= from[k] < |hists| && |hists[from[k]]| == bins
    requires |hist| == bins && forall j :: 0 <= j < bins ==>
        hist[j] == SumFrom(BinOf(hists, j), HistogramPartners(h, i, m, gid))
    ensures HoldsSum(h, i, m, bins, local, hist, gid)
  {
    var from, held := HistogramPartners(h, i, m, gid), CollectIn(HistogramSources(h, i), m - 1);
    CollectStep(HistogramSources(h, i), m, gid);
    forall j | 0 <= j < bins ensures hist[j] == Weighted(HistogramFrom(h, i, m, gid), BinOf(local, j), |local|) {
      forall k | 0 <= k < |from| ensures BinOf(hists, j)(from[k]) == Weighted(held(from[k]), BinOf(local, j), |local|) {
        HeardAreActive(h, i, m, gid, from[k]);
      }
      SumFromIsGather(BinOf(hists, j), held, from, BinOf(local, j), |local|);
    }
  }

  /** One round, after the round before it in the list: every active block adds up what its incoming
      partners sent it. */
  method HistogramRound(h: Partners, p: Partners, ghost i: nat, ghost m: nat, prev: Round, x: Round, bins: nat,
                        ghost local: seq<Histogram>, hists: seq<Histogram>)
    returns (hists': seq<Histogram>)
    requires KdPartners(h, p) && i < p.Rounds() && 0 < m <= 2 * (p.Rounds() - i)
    requires prev == RoundAt(p.Rounds(), i, m - 1) && x == RoundAt(p.Rounds(), i, m)
    requires HoldsAt(h, i, m - 1, bins, local, hists)
    ensures HoldsAt(h, i, m, bins, local, hists')
  {
    hists' := hists;
    for gid := 0 to |hists|
      invariant |hists'| == |hists|
      invariant forall g :: 0 <= g < gid && MergeActive(h, Level(h.Rounds(), i, m), g) ==>
                  HoldsSum(h, i, m, bins, local, hists'[g], g)
    {
      ActiveAtPosition(h, p, i, m, gid);
      IncomingOfRound(h, p, i, m, prev, x, gid, _ => []);
      var active := IsKdActive(h, p, x, gid);
      if active {
        var from := FillKdIncoming(h, p, prev, At(x), gid, _ => [], []);
        forall k | 0 <= k < |from| ensures 0 <= from[k] < |hists| && |hists[from[k]]| == bins {
          HeardAreActive(h, i, m, gid, from[k]);
        }
        var sum := AddHistograms(hists, from, bins);
        AddedIsSum(h, i, m, bins, local, hists, gid, sum);
        hists' := hists'[gid := sum];
      }
    }
  }

  lemma OwnHistogram(h: Partners, i: nat, bins: nat, local: seq<Histogram>, gid: int)
    requires h.Valid() && i < h.Rounds() && h.Block(gid) && |local| == Volume(h.divs) && Sized(local, bins)
    ensures HoldsSum(h, i, 0, bins, local, local[gid], gid)
  {
    forall j | 0 <= j < bins ensures local[gid][j] == Weighted(HistogramFrom(h, i, 0, gid), BinOf(local, j), |local|) {
      WeightedOne(gid, BinOf(local, j), |local|);
    }
  }

  lemma OwnHistograms(h: Partners, i: nat, bins: nat, local: seq<Histogram>)
    requires h.Valid() && i < h.Rounds() && |local| == Volume(h.divs) && Sized(local, bins)
    ensures HoldsAt(h, i, 0, bins, local, local)
  {
    forall gid | h.Block(gid) ensures HoldsSum(h, i, 0, bins, local, local[gid], gid) {
      OwnHistogram(h, i, bins, local, gid);
    }
  }

  // ---------- the result ----------

  /** Which blocks share gid's first i digits. */
  ghost function InNode(p: Partners, i: nat, gid: int): int -> bool
    requires p.Valid() && i <= p.Rounds() && p.Block(gid)
  {
    a => p.Block(a) && AgreeBelow(p, i, a, gid)
  }

  /** Bin j summed over gid's node. */
  ghost function NodeSum(p: Partners, i: nat, gid: int, local: seq<Histogram>, j: nat): nat
    requires p.Valid() && i <= p.Rounds() && p.Block(gid)
  {
    SumWhere(InNode(p, i, gid), BinOf(local, j), |local|)
  }

  lemma SumOfNode(h: Partners, p: Partners, i: nat, bins: nat, local: seq<Histogram>, hist: Histogram, gid: int)
    requires KdPartners(h, p) && i < p.Rounds() && p.Block(gid) && |local| == Volume(p.divs) && Sized(local, bins)
    requires HoldsSum(h, i, 2 * (p.Rounds() - i), bins, local, hist, gid)
    ensures forall j :: 0 <= j < bins ==> hist[j] == NodeSum(p, i, gid, local, j)
  {
    var weight := HistogramFrom(h, i, 2 * (p.Rounds() - i), gid);
    forall a | p.Block(a) ensures weight[a] == One(InNode(p, i, gid)(a)) {
      HistogramOfNode(h, p, i, gid, a);
    }
    forall j | 0 <= j < bins ensures hist[j] == NodeSum(p, i, gid, local, j) {
      WeightedIsSumWhere(InNode(p, i, gid), weight, BinOf(local, j), |local|);
    }
  }

  lemma SumsOfNodes(h: Partners, p: Partners, i: nat, bins: nat, local: seq<Histogram>, hists: seq<Histogram>)
    requires KdPartners(h, p) && i < p.Rounds() && HoldsAt(h, i, 2 * (p.Rounds() - i), bins, local, hists)
    ensures Sized(hists, bins)
    ensures forall gid, j :: p.Block(gid) && 0 <= j < bins ==> hists[gid][j] == NodeSum(p, i, gid, local, j)
  {
    forall gid | p.Block(gid)
      ensures |hists[gid]| == bins && forall j :: 0 <= j < bins ==> hists[gid][j] == NodeSum(p, i, gid, local, j)
    {
      SumOfNode(h, p, i, bins, local, hists[gid], gid);
    }
  }
}
