/** What one block does with its points in an outer iteration: count them into a histogram, pick a
    split near the node's median, and trade points with the block that keeps the other half. */
module KdPoints {
  import opened Options
  import opened KdGeometry

  type Point = seq<real>

  ghost predicate Inside(x: Point, b: Box) {
    |x| == |b.min| == |b.max| && forall d :: 0 <= d < |x| ==> b.min[d] <= x[d] <= b.max[d]
  }

  ghost predicate AllInside(points: seq<Point>, b: Box) {
    forall x :: x in points ==> Inside(x, b)
  }

  ghost predicate Reach(points: seq<Point>, dim: nat) {
    forall i :: 0 <= i < |points| ==> dim < |points[i]|
  }

  // ---------- real arithmetic ----------

  lemma QuotientSign(a: real, w: real)
    requires w > 0.0
    ensures a / w * w == a && (a / w < 0.0 <==> a < 0.0)
  {
    var q := a / w;
    assert q * w == a;
    if q < 0.0 { assert q * w < 0.0; }
    if q >= 0.0 { assert q * w >= 0.0; }
  }

  lemma TimesLess(q: real, k: real, w: real)
    requires w > 0.0
    ensures q < k <==> q * w < k * w
  {
    assert (k - q) * w == k * w - q * w;
    if q < k { assert (k - q) * w > 0.0; }
    if q >= k { assert (k - q) * w <= 0.0; }
  }

  // ---------- histogram ----------

  function Width(core: Box, dim: nat, bins: nat): real
    requires dim < |core.min| && dim < |core.max| && bins > 0
  {
    (core.max[dim] - core.min[dim]) / (bins as real)
  }

  lemma WidthPositive(core: Box, dim: nat, bins: nat)
    requires dim < |core.min| && dim < |core.max| && bins > 0 && core.min[dim] < core.max[dim]
    ensures Width(core, dim, bins) > 0.0
    ensures core.min[dim] + Width(core, dim, bins) * (bins as real) == core.max[dim]
  {
    var a, w := core.max[dim] - core.min[dim], bins as real;
    QuotientSign(a, w);
    assert a / w == 0.0 ==> a == 0.0 * w;
  }

  /** The bin a coordinate falls into; the upper boundary belongs to the last bin. */
  function Bin(x: real, min: real, width: real, bins: nat): int
    requires width > 0.0 && bins > 0
  {
    var loc := ((x - min) / width).Floor;
    if loc >= bins then bins - 1 else loc
  }

  function CountIn(points: seq<Point>, dim: nat, min: real, width: real, bins: nat, l: int): nat
    requires width > 0.0 && bins > 0 && Reach(points, dim)
  {
    if points == [] then 0 else
    var n := |points| - 1;
    CountIn(points[..n], dim, min, width, bins, l) + (if Bin(points[n][dim], min, width, bins) == l then 1 else 0)
  }

  function Total(s: seq<nat>): nat {
    if s == [] then 0 else Total(s[..|s| - 1]) + s[|s| - 1]
  }

  /** `compute_local_histogram`; a point below the block's core throws. */
  method LocalHistogram(points: seq<Point>, core: Box, dim: nat, bins: nat) returns (r: Option<seq<nat>>)
    requires dim < |core.min| && dim < |core.max| && core.min[dim] < core.max[dim] && bins > 0 && Reach(points, dim)
    ensures Width(core, dim, bins) > 0.0
    ensures r.None? <==> exists i :: 0 <= i < |points| && points[i][dim] < core.min[dim]
    ensures r.Some? ==> |r.value| == bins
    ensures r.Some? ==> forall l :: 0 <= l < bins ==>
        r.value[l] == CountIn(points, dim, core.min[dim], Width(core, dim, bins), bins, l)
  {
    WidthPositive(core, dim, bins);
    var histogram: seq<nat> := seq(bins, _ => 0);
    var width := Width(core, dim, bins);
    for i := 0 to |points|
      invariant forall j :: 0 <= j < i ==> points[j][dim] >= core.min[dim]
      invariant |histogram| == bins
      invariant forall l :: 0 <= l < bins ==> histogram[l] == CountIn(points[..i], dim, core.min[dim], width, bins, l)
    {
      var x := points[i][dim];
      var floc := (x - core.min[dim]) / width;
      QuotientSign(x - core.min[dim], width);
      if floc < 0.0 {
        return None;
      }
      var loc := floc.Floor;
      if loc >= bins {
        loc := bins - 1;
      }
      assert points[..i + 1][..i] == points[..i];
      histogram := histogram[loc := histogram[loc] + 1];
    }
    assert points[..|points|] == points;
    r := Some(histogram);
  }

  // ---------- picking the split ----------

  const SIZE_T := 0x1_0000_0000_0000_0000

  /** Subtraction of two as the unsigned type does it. */
  function MinusTwo(n: nat): nat
    requires n < SIZE_T
  {
    if n >= 2 then n - 2 else n + SIZE_T - 2
  }

  /** The bin in which the running count passes half of the total, kept away from both ends. */
  function SplitIndex(histogram: seq<nat>, i: nat): nat
    requires 0 < |histogram| < SIZE_T
  {
    if i == 0 then 1 else if i >= |histogram| - 1 then MinusTwo(|histogram|) else i
  }

  /** i is the first bin with which the count exceeds half of the total. */
  ghost predicate Passes(histogram: seq<nat>, i: nat) {
    && i <= |histogram|
    && Total(histogram[..i]) <= Total(histogram) / 2
    && (i < |histogram| ==> Total(histogram[..i + 1]) > Total(histogram) / 2)
  }

  method PickBin(histogram: seq<nat>) returns (bin: nat, ghost at: nat)
    requires 0 < |histogram| < SIZE_T
    ensures Passes(histogram, at) && bin == SplitIndex(histogram, at)
  {
    var total := 0;
    for i := 0 to |histogram|
      invariant total == Total(histogram[..i])
    {
      assert histogram[..i + 1][..i] == histogram[..i];
      total := total + histogram[i];
    }
    assert histogram[..|histogram|] == histogram;
    var cur, i := 0, 0;
    while i < |histogram|
      invariant 0 <= i <= |histogram| && cur == Total(histogram[..i]) && cur <= total / 2
    {
      assert histogram[..i + 1][..i] == histogram[..i];
      if cur + histogram[i] > total / 2 {
        break;
      }
      cur := cur + histogram[i];
      i := i + 1;
    }
    at := i;
    if i == 0 {
      i := i + 1;
    } else if i >= |histogram| - 1 {
      i := MinusTwo(|histogram|);
    }
    bin := i;
  }

  /** k widths above min. */
  function Boundary(min: real, width: real, k: nat): real {
    if k == 0 then min else Boundary(min, width, k - 1) + width
  }

  lemma {:induction false} BoundaryIsProduct(min: real, width: real, k: nat)
    ensures Boundary(min, width, k) == min + width * (k as real)
  {
    if k > 0 {
      BoundaryIsProduct(min, width, k - 1);
      assert width * (k as real) == width * ((k - 1) as real) + width;
    }
  }

  function SplitAt(core: Box, dim: nat, bins: nat, bin: nat): real
    requires dim < |core.min| && dim < |core.max| && bins > 0
  {
    Boundary(core.min[dim], Width(core, dim, bins), bin)
  }

  method PickSplit(histogram: seq<nat>, core: Box, dim: nat, bins: nat) returns (split: real, ghost at: nat)
    requires |histogram| == bins && 0 < bins < SIZE_T && dim < |core.min| && dim < |core.max|
    ensures Passes(histogram, at)
    ensures split == SplitAt(core, dim, bins, SplitIndex(histogram, at))
  {
    var bin: nat;
    bin, at := PickBin(histogram);
    var width := Width(core, dim, bins);
    BoundaryIsProduct(core.min[dim], width, bin);
    split := core.min[dim] + width * (bin as real);
  }

  lemma {:induction false} TotalMonotone(s: seq<nat>, i: nat, j: nat)
    requires i <= j <= |s|
    ensures Total(s[..i]) <= Total(s[..j])
  {
    if i < j {
      TotalMonotone(s, i, j - 1);
      assert s[..j][..j - 1] == s[..j - 1];
    }
  }

  /** Only one bin can pass half of the total. */
  lemma PassesOnce(histogram: seq<nat>, i: nat, j: nat)
    requires Passes(histogram, i) && Passes(histogram, j)
    ensures i == j
  {
    if i < j { TotalMonotone(histogram, i + 1, j); }
    if j < i { TotalMonotone(histogram, j + 1, i); }
  }

  /** Where the bin that is used is an interior boundary. */
  ghost predicate SplitsInside(histogram: seq<nat>) {
    |histogram| >= 3 || (|histogram| == 2 && histogram[0] > Total(histogram) / 2)
  }

  lemma BinInterior(histogram: seq<nat>, at: nat)
    requires 0 < |histogram| < SIZE_T && Passes(histogram, at)
    ensures 0 < SplitIndex(histogram, at) < |histogram| <==> SplitsInside(histogram)
  {
    assert histogram[..1][..0] == histogram[..0];
    if at > 0 { TotalMonotone(histogram, 1, at); }
  }

  lemma BoundaryInterior(min: real, max: real, w: real, k: nat, n: nat)
    requires w > 0.0 && min + w * (n as real) == max
    ensures min < Boundary(min, w, k) < max <==> 0 < k < n
  {
    BoundaryIsProduct(min, w, k);
    TimesLess(0.0, k as real, w);
    TimesLess(k as real, n as real, w);
    assert 0.0 * w == 0.0;
  }

  lemma SplitAtInterior(core: Box, dim: nat, bins: nat, bin: nat)
    requires bins > 0 && dim < |core.min| && dim < |core.max| && core.min[dim] < core.max[dim]
    ensures core.min[dim] < SplitAt(core, dim, bins, bin) < core.max[dim] <==> 0 < bin < bins
  {
    WidthPositive(core, dim, bins);
    BoundaryInterior(core.min[dim], core.max[dim], Width(core, dim, bins), bin, bins);
  }

  /** The split is strictly inside the box for three bins or more; for two bins exactly when the lower bin
      holds more than half of the points; for one bin never. */
  lemma SplitInterior(histogram: seq<nat>, core: Box, dim: nat, at: nat)
    requires 0 < |histogram| < SIZE_T && dim < |core.min| && dim < |core.max| && core.min[dim] < core.max[dim]
    requires Passes(histogram, at)
    ensures core.min[dim] < SplitAt(core, dim, |histogram|, SplitIndex(histogram, at)) < core.max[dim]
       <==> SplitsInside(histogram)
  {
    BinInterior(histogram, at);
    SplitAtInterior(core, dim, |histogram|, SplitIndex(histogram, at));
  }

  /** One bin: the split falls on the upper face, or far beyond it if there are no points at all. */
  lemma OneBin(n: nat, core: Box, dim: nat, at: nat)
    requires dim < |core.min| && dim < |core.max| && core.min[dim] < core.max[dim] && Passes([n], at)
    ensures n > 0 ==> SplitAt(core, dim, 1, SplitIndex([n], at)) == core.max[dim]
    ensures n == 0 ==> SplitIndex([n], at) == SIZE_T - 1
  {
    assert [n][..0] == [] && [n][..1] == [n] && Total([n]) == Total([]) + n;
    WidthPositive(core, dim, 1);
    BoundaryIsProduct(core.min[dim], Width(core, dim, 1), 1);
  }

  /** Two bins and one point, in the upper half of the box: the split is the lower face. */
  lemma SplitOnFace(histogram: seq<nat>)
    requires histogram == [0, 1]
    ensures Passes(histogram, 1) && SplitAt(Box([0.0], [2.0]), 0, 2, SplitIndex(histogram, 1)) == 0.0
  {
    assert histogram[..1] == [0] && histogram[..2] == histogram && [0][..0] == [] && histogram[..2][..1] == [0];
    assert Total([0]) == 0 && Total(histogram) == 1;
  }

  // ---------- what the histogram says about the split ----------

  /** How many points lie below a coordinate. */
  function Below(points: seq<Point>, dim: nat, split: real): nat
    requires Reach(points, dim)
  {
    if points == [] then 0 else
    var n := |points| - 1;
    Below(points[..n], dim, split) + (if points[n][dim] < split then 1 else 0)
  }

  /** A coordinate is below a bin's lower boundary iff it falls into an earlier bin. */
  lemma BinBelow(x: real, min: real, width: real, bins: nat, k: nat)
    requires width > 0.0 && bins > 0 && x >= min && k < bins
    ensures x < Boundary(min, width, k) <==> Bin(x, min, width, bins) < k
  {
    BoundaryIsProduct(min, width, k);
    var q := (x - min) / width;
    QuotientSign(x - min, width);
    TimesLess(q, k as real, width);
  }

  lemma BinRange(x: real, min: real, width: real, bins: nat)
    requires width > 0.0 && bins > 0 && x >= min
    ensures 0 <= Bin(x, min, width, bins) < bins
  {
    QuotientSign(x - min, width);
  }

  /** Points in the first k bins. */
  function CountFirst(points: seq<Point>, dim: nat, min: real, width: real, bins: nat, k: nat): nat
    requires width > 0.0 && bins > 0 && Reach(points, dim)
  {
    if k == 0 then 0
    else CountFirst(points, dim, min, width, bins, k - 1) + CountIn(points, dim, min, width, bins, k - 1)
  }

  lemma {:induction false} CountFirstStep(points: seq<Point>, dim: nat, min: real, width: real, bins: nat, k: nat)
    requires width > 0.0 && bins > 0 && Reach(points, dim) && points != []
    requires Bin(points[|points| - 1][dim], min, width, bins) >= 0
    ensures CountFirst(points, dim, min, width, bins, k)
         == CountFirst(points[..|points| - 1], dim, min, width, bins, k)
            + (if Bin(points[|points| - 1][dim], min, width, bins) < k then 1 else 0)
  {
    if k > 0 {
      CountFirstStep(points, dim, min, width, bins, k - 1);
    }
  }

  lemma {:induction false} NoPointsNoCount(dim: nat, min: real, width: real, bins: nat, k: nat)
    requires width > 0.0 && bins > 0
    ensures CountFirst([], dim, min, width, bins, k) == 0
  {
    if k > 0 { NoPointsNoCount(dim, min, width, bins, k - 1); }
  }

  lemma {:induction false} CountFirstIsBelow(points: seq<Point>, dim: nat, min: real, width: real, bins: nat, k: nat)
    requires width > 0.0 && bins > 0 && Reach(points, dim) && k <= bins
    requires forall i :: 0 <= i < |points| ==> points[i][dim] >= min
    ensures k < bins ==> CountFirst(points, dim, min, width, bins, k) == Below(points, dim, Boundary(min, width, k))
    ensures k == bins ==> CountFirst(points, dim, min, width, bins, k) == |points|
  {
    if points == [] {
      NoPointsNoCount(dim, min, width, bins, k);
    } else {
      var n := |points| - 1;
      CountFirstIsBelow(points[..n], dim, min, width, bins, k);
      BinRange(points[n][dim], min, width, bins);
      CountFirstStep(points, dim, min, width, bins, k);
      if k < bins { BinBelow(points[n][dim], min, width, bins, k); }
    }
  }

  lemma {:induction false} TotalIsCountFirst(histogram: seq<nat>, points: seq<Point>, dim: nat, min: real,
          width: real, bins: nat, k: nat)
    requires width > 0.0 && bins > 0 && Reach(points, dim) && |histogram| == bins && k <= bins
    requires forall l :: 0 <= l < bins ==> histogram[l] == CountIn(points, dim, min, width, bins, l)
    ensures Total(histogram[..k]) == CountFirst(points, dim, min, width, bins, k)
  {
    if k > 0 {
      TotalIsCountFirst(histogram, points, dim, min, width, bins, k - 1);
      assert histogram[..k][..k - 1] == histogram[..k - 1];
    }
  }

  /** A block's histogram counts, up to any bin, exactly its points below that bin's boundary; every
      point is counted. */
  lemma HistogramCounts(histogram: seq<nat>, points: seq<Point>, dim: nat, min: real, width: real, k: nat)
    requires |histogram| > 0 && Reach(points, dim) && width > 0.0 && k < |histogram|
    requires forall l :: 0 <= l < |histogram| ==> histogram[l] == CountIn(points, dim, min, width, |histogram|, l)
    requires forall i :: 0 <= i < |points| ==> points[i][dim] >= min
    ensures Total(histogram[..k]) == Below(points, dim, Boundary(min, width, k))
    ensures Total(histogram) == |points|
  {
    var bins := |histogram|;
    TotalIsCountFirst(histogram, points, dim, min, width, bins, k);
    TotalIsCountFirst(histogram, points, dim, min, width, bins, bins);
    CountFirstIsBelow(points, dim, min, width, bins, k);
    CountFirstIsBelow(points, dim, min, width, bins, bins);
    assert histogram[..bins] == histogram;
  }
}
