/** How RegularPartners factors the divisions of a grid into rounds of groups, and the stride of each round. */
module Factoring {
  import opened Arith

  /** One round: groups of `size` blocks along dimension `dim`. */
  datatype DimK = DimK(dim: nat, size: nat)

  // ---------- one dimension ----------

  /** The largest divisor of rem in 2..j, or rem itself when there is none. */
  function LargestDivisor(rem: nat, j: nat): (d: nat)
    requires rem > 1
    ensures 2 <= d && rem % d == 0
    ensures (d <= j || d == rem) && forall e :: 2 <= e <= j && rem % e == 0 ==> e <= d
  {
    if j <= 1 then rem
    else if rem % j == 0 then j
    else LargestDivisor(rem, j - 1)
  }

  function Product(kv: seq<nat>): nat {
    if kv == [] then 1 else kv[0] * Product(kv[1..])
  }

  lemma DividePart(rem: nat, d: nat)
    requires rem > 1 && d >= 2 && rem % d == 0
    ensures 1 <= rem / d < rem && d * (rem / d) == rem
  {
    var q := rem / d;
    assert rem == d * q;
    if q <= 0 { MulMono(q, 0, d); }
    MulMono(2, d, q);
  }

  function Factors(k: nat, n: nat): seq<nat>
    requires k >= 2
  {
    if n <= 1 then [] else
    var d := LargestDivisor(n, k);
    DividePart(n, d);
    [d] + Factors(k, n / d)
  }

  /** The factors of a dimension multiply back to it, and each is at least 2. */
  lemma {:induction false} FactorsMultiply(k: nat, n: nat)
    requires k >= 2 && n >= 1
    ensures Product(Factors(k, n)) == n
    ensures forall i :: 0 <= i < |Factors(k, n)| ==> Factors(k, n)[i] >= 2
  {
    if n > 1 {
      var d := LargestDivisor(n, k);
      DividePart(n, d);
      FactorsMultiply(k, n / d);
    }
  }

  /** The group size the next round gets: k if it divides, else the first smaller divisor, else all of rem. */
  method NextFactor(k: nat, rem: nat) returns (d: nat)
    requires k >= 2 && rem > 1
    ensures d == LargestDivisor(rem, k)
  {
    if rem % k == 0 {
      return k;
    }
    var j := k - 1;
    while j > 1
      invariant 1 <= j < k
      invariant LargestDivisor(rem, k) == LargestDivisor(rem, j)
    {
      if rem % j == 0 {
        return j;
      }
      j := j - 1;
    }
    return rem;
  }

  method Factor(k: nat, totB: nat) returns (kv: seq<nat>)
    requires k >= 2
    ensures kv == Factors(k, totB)
  {
    kv := [];
    var rem := totB;
    while rem > 1
      invariant rem >= 0
      invariant kv + Factors(k, rem) == Factors(k, totB)
      decreases rem
    {
      var d := NextFactor(k, rem);
      DividePart(rem, d);
      assert kv + Factors(k, rem) == kv + [d] + Factors(k, rem / d);
      kv := kv + [d];
      rem := rem / d;
    }
  }

  // ---------- interleaving the dimensions ----------

  /** The t-th factor of every dimension that still has one, in dimension order, from dimension i on. */
  function Pass(fs: seq<seq<nat>>, t: nat, i: nat): seq<DimK>
    requires i <= |fs|
    decreases |fs| - i
  {
    if i == |fs| then [] else
    (if t < |fs[i]| then [DimK(i, fs[i][t])] else []) + Pass(fs, t, i + 1)
  }

  function Longest(fs: seq<seq<nat>>): (n: nat)
    ensures forall i :: 0 <= i < |fs| ==> |fs[i]| <= n
  {
    if fs == [] then 0 else
    var n := Longest(fs[1..]);
    assert forall i :: 0 <= i < |fs| ==> |fs[i]| <= if |fs[0]| > n then |fs[0]| else n by {
      forall i | 0 <= i < |fs| ensures |fs[i]| <= if |fs[0]| > n then |fs[0]| else n {
        if i > 0 { assert fs[i] == fs[1..][i - 1]; }
      }
    }
    if |fs[0]| > n then |fs[0]| else n
  }

  function Interleave(fs: seq<seq<nat>>, t: nat): seq<DimK>
    decreases Longest(fs) - t
  {
    if Longest(fs) <= t then [] else Pass(fs, t, 0) + Interleave(fs, t + 1)
  }

  /** The sizes of the rounds that run along dimension d, in round order. */
  function Along(kvs: seq<DimK>, d: nat): seq<nat> {
    if kvs == [] then []
    else if kvs[0].dim == d then [kvs[0].size] + Along(kvs[1..], d)
    else Along(kvs[1..], d)
  }

  lemma {:induction false} AlongConcat(a: seq<DimK>, b: seq<DimK>, d: nat)
    ensures Along(a + b, d) == Along(a, d) + Along(b, d)
  {
    if a == [] {
      assert a + b == b;
    } else {
      assert (a + b)[1..] == a[1..] + b;
      AlongConcat(a[1..], b, d);
      var head := if a[0].dim == d then [a[0].size] else [];
      assert Along(a, d) == head + Along(a[1..], d);
      assert head + (Along(a[1..], d) + Along(b, d)) == head + Along(a[1..], d) + Along(b, d);
    }
  }

  lemma {:induction false} AlongPass(fs: seq<seq<nat>>, t: nat, i: nat, d: nat)
    requires i <= |fs|
    ensures Along(Pass(fs, t, i), d) == if i <= d < |fs| && t < |fs[d]| then [fs[d][t]] else []
    decreases |fs| - i
  {
    if i < |fs| {
      AlongPass(fs, t, i + 1, d);
      assert t < |fs[i]| ==> Along([DimK(i, fs[i][t])], d) == if i == d then [fs[i][t]] else [];
      AlongConcat(if t < |fs[i]| then [DimK(i, fs[i][t])] else [], Pass(fs, t, i + 1), d);
    }
  }

  /** Interleaving keeps the factors of every dimension, in their order. */
  lemma {:induction false} AlongInterleave(fs: seq<seq<nat>>, t: nat, d: nat)
    requires d < |fs|
    ensures Along(Interleave(fs, t), d) == if t <= |fs[d]| then fs[d][t..] else []
    decreases Longest(fs) - t
  {
    if t < Longest(fs) {
      AlongInterleave(fs, t + 1, d);
      AlongPass(fs, t, 0, d);
      AlongConcat(Pass(fs, t, 0), Interleave(fs, t + 1), d);
    }
  }

  lemma {:induction false} PassInRange(fs: seq<seq<nat>>, t: nat, i: nat)
    requires i <= |fs|
    requires forall d, j :: 0 <= d < |fs| && 0 <= j < |fs[d]| ==> fs[d][j] >= 2
    ensures forall r :: 0 <= r < |Pass(fs, t, i)| ==> Pass(fs, t, i)[r].dim < |fs| && Pass(fs, t, i)[r].size >= 2
    decreases |fs| - i
  {
    if i < |fs| {
      PassInRange(fs, t, i + 1);
    }
  }

  lemma {:induction false} InterleaveInRange(fs: seq<seq<nat>>, t: nat)
    requires forall d, j :: 0 <= d < |fs| && 0 <= j < |fs[d]| ==> fs[d][j] >= 2
    ensures forall r :: 0 <= r < |Interleave(fs, t)| ==>
        Interleave(fs, t)[r].dim < |fs| && Interleave(fs, t)[r].size >= 2
    decreases Longest(fs) - t
  {
    if t < Longest(fs) {
      PassInRange(fs, t, 0);
      InterleaveInRange(fs, t + 1);
    }
  }

  function AllFactors(k: nat, divs: seq<nat>): seq<seq<nat>>
    requires k >= 2
  {
    seq(|divs|, i requires 0 <= i < |divs| => Factors(k, divs[i]))
  }

  lemma PassEmpty(fs: seq<seq<nat>>, t: nat, i: nat)
    requires i <= |fs| && forall d :: i <= d < |fs| ==> |fs[d]| <= t
    ensures Pass(fs, t, i) == []
    decreases |fs| - i
  {
  }

  lemma {:induction false} LongestAttained(fs: seq<seq<nat>>, t: nat)
    requires forall d :: 0 <= d < |fs| ==> |fs[d]| <= t
    ensures Longest(fs) <= t
  {
    if fs != [] {
      assert forall d :: 0 <= d < |fs[1..]| ==> fs[1..][d] == fs[d + 1];
      LongestAttained(fs[1..], t);
    }
  }

  function Min(a: nat, b: nat): nat {
    if a <= b then a else b
  }

  /** One sweep over the dimensions: pushes the next factor of every dimension that has one left. */
  method PushRound(fs: seq<seq<nat>>, ghost t: nat, kvs: seq<DimK>, roundPerDim: seq<nat>)
    returns (kvs': seq<DimK>, roundPerDim': seq<nat>, changed: bool)
    requires |roundPerDim| == |fs| && forall d :: 0 <= d < |fs| ==> roundPerDim[d] == Min(t, |fs[d]|)
    ensures |roundPerDim'| == |fs| && forall d :: 0 <= d < |fs| ==> roundPerDim'[d] == Min(t + 1, |fs[d]|)
    ensures kvs' == kvs + Pass(fs, t, 0)
    ensures changed <==> exists d :: 0 <= d < |fs| && t < |fs[d]|
  {
    kvs', roundPerDim', changed := kvs, roundPerDim, false;
    for i := 0 to |fs|
      invariant |roundPerDim'| == |fs|
      invariant forall d :: 0 <= d < i ==> roundPerDim'[d] == Min(t + 1, |fs[d]|)
      invariant forall d :: i <= d < |fs| ==> roundPerDim'[d] == Min(t, |fs[d]|)
      invariant kvs' + Pass(fs, t, i) == kvs + Pass(fs, t, 0)
      invariant changed <==> exists d :: 0 <= d < i && t < |fs[d]|
    {
      if roundPerDim'[i] < |fs[i]| {
        kvs' := kvs' + [DimK(i, fs[i][roundPerDim'[i]])];
        roundPerDim' := roundPerDim'[i := roundPerDim'[i] + 1];
        changed := true;
      }
    }
  }

  lemma InterleaveUnfold(fs: seq<seq<nat>>, t: nat)
    ensures Interleave(fs, t) ==
              if exists d :: 0 <= d < |fs| && t < |fs[d]| then Pass(fs, t, 0) + Interleave(fs, t + 1) else []
    ensures (forall d :: 0 <= d < |fs| ==> |fs[d]| <= t) ==> Pass(fs, t, 0) == []
  {
    if forall d :: 0 <= d < |fs| ==> |fs[d]| <= t {
      LongestAttained(fs, t);
      PassEmpty(fs, t, 0);
    }
  }

  /** A sweep moves the next pass from what is to come to what has been pushed; an idle one ends it. */
  lemma PushedRound(fs: seq<seq<nat>>, t: nat, before: seq<DimK>, kvs: seq<DimK>, changed: bool)
    requires kvs == before + Pass(fs, t, 0) && (changed <==> exists d :: 0 <= d < |fs| && t < |fs[d]|)
    ensures changed ==> t < Longest(fs) && kvs + Interleave(fs, t + 1) == before + Interleave(fs, t)
    ensures !changed ==> kvs == before && Interleave(fs, t) == []
  {
    InterleaveUnfold(fs, t);
    AppendAssoc(before, Pass(fs, t, 0), Interleave(fs, t + 1));
  }

  lemma AppendAssoc<T>(a: seq<T>, b: seq<T>, c: seq<T>)
    ensures a + (b + c) == a + b + c
  {
  }

  method FactorEach(k: nat, divs: seq<nat>) returns (fs: seq<seq<nat>>)
    requires k >= 2
    ensures fs == AllFactors(k, divs)
  {
    fs := [];
    for i := 0 to |divs|
      invariant fs == AllFactors(k, divs)[..i]
    {
      var kv := Factor(k, divs[i]);
      fs := fs + [kv];
    }
  }

  method FactorAll(k: nat, divs: seq<nat>) returns (kvs: seq<DimK>)
    requires k >= 2
    ensures kvs == Interleave(AllFactors(k, divs), 0)
  {
    var fs := FactorEach(k, divs);
    kvs := [];
    var roundPerDim: seq<nat> := seq(|fs|, _ => 0);
    ghost var t := 0;
    var changed := true;
    while changed
      invariant |roundPerDim| == |fs| && forall d :: 0 <= d < |fs| ==> roundPerDim[d] == Min(t, |fs[d]|)
      invariant kvs + Interleave(fs, t) == Interleave(fs, 0)
      invariant !changed ==> Interleave(fs, t) == []
      decreases Longest(fs) - t, changed
    {
      ghost var before := kvs;
      kvs, roundPerDim, changed := PushRound(fs, t, kvs, roundPerDim);
      PushedRound(fs, t, before, kvs, changed);
      if changed {
        t := t + 1;
      }
    }
  }

  // ---------- strides ----------

  /** Product of the sizes of the rounds before r that run along d. */
  function Before(kvs: seq<DimK>, r: nat, d: nat): nat
    requires r <= |kvs|
  {
    if r == 0 then 1
    else if kvs[r - 1].dim == d then Before(kvs, r - 1, d) * kvs[r - 1].size
    else Before(kvs, r - 1, d)
  }

  /** Product of the sizes of the rounds from r on that run along d. */
  function After(kvs: seq<DimK>, r: nat, d: nat): nat
    requires r <= |kvs|
    decreases |kvs| - r
  {
    if r == |kvs| then 1
    else if kvs[r].dim == d then kvs[r].size * After(kvs, r + 1, d)
    else After(kvs, r + 1, d)
  }

  /** What the rounds must be for the grid: groups along existing dimensions whose sizes multiply to
      the number of blocks in that dimension. */
  predicate Tiles(divs: seq<nat>, kvs: seq<DimK>) {
    && (forall d :: 0 <= d < |divs| ==> divs[d] > 0)
    && (forall r :: 0 <= r < |kvs| ==> kvs[r].dim < |divs| && kvs[r].size > 0)
    && (forall d :: 0 <= d < |divs| ==> After(kvs, 0, d) == divs[d])
  }

  lemma {:induction false} AfterIsProduct(kvs: seq<DimK>, r: nat, d: nat)
    requires r <= |kvs|
    ensures After(kvs, r, d) == Product(Along(kvs[r..], d))
    decreases |kvs| - r
  {
    if r < |kvs| {
      assert kvs[r..][1..] == kvs[r + 1..];
      AfterIsProduct(kvs, r + 1, d);
      if kvs[r].dim == d {
        assert Along(kvs[r..], d) == [kvs[r].size] + Along(kvs[r + 1..], d);
        assert Along(kvs[r..], d)[1..] == Along(kvs[r + 1..], d);
      }
    }
  }

  /** The rounds that `factor` builds tile the grid, for every target group size k >= 2. */
  lemma FactoringTiles(k: nat, divs: seq<nat>)
    requires k >= 2 && forall d :: 0 <= d < |divs| ==> divs[d] > 0
    ensures Tiles(divs, Interleave(AllFactors(k, divs), 0))
    ensures forall r :: 0 <= r < |Interleave(AllFactors(k, divs), 0)| ==>
        Interleave(AllFactors(k, divs), 0)[r].size >= 2
  {
    var fs := AllFactors(k, divs);
    var kvs := Interleave(fs, 0);
    forall d, j | 0 <= d < |fs| && 0 <= j < |fs[d]| ensures fs[d][j] >= 2 {
      FactorsMultiply(k, divs[d]);
    }
    InterleaveInRange(fs, 0);
    forall d | 0 <= d < |divs| ensures After(kvs, 0, d) == divs[d] {
      AlongInterleave(fs, 0, d);
      FactorsMultiply(k, divs[d]);
      AfterIsProduct(kvs, 0, d);
      assert kvs[0..] == kvs;
    }
  }

  lemma {:induction false} BeforeTimesAfter(kvs: seq<DimK>, r: nat, d: nat)
    requires r <= |kvs|
    ensures Before(kvs, r, d) * After(kvs, r, d) == After(kvs, 0, d)
  {
    if r > 0 {
      BeforeTimesAfter(kvs, r - 1, d);
      MulAssoc(Before(kvs, r - 1, d), kvs[r - 1].size, After(kvs, r, d));
    }
  }

  lemma {:induction false} StridesPositive(divs: seq<nat>, kvs: seq<DimK>, r: nat, d: nat)
    requires Tiles(divs, kvs) && r <= |kvs|
    ensures After(kvs, r, d) > 0 && Before(kvs, r, d) > 0
    decreases |kvs| - r
  {
    if r < |kvs| {
      StridesPositive(divs, kvs, r + 1, d);
      if kvs[r].dim == d {
        MulPos(kvs[r].size, After(kvs, r + 1, d));
        assert Before(kvs, r + 1, d) == Before(kvs, r, d) * kvs[r].size;
      }
    } else {
      BeforePositive(divs, kvs, r, d);
    }
    BeforePositive(divs, kvs, r, d);
  }

  lemma {:induction false} BeforePositive(divs: seq<nat>, kvs: seq<DimK>, r: nat, d: nat)
    requires Tiles(divs, kvs) && r <= |kvs|
    ensures Before(kvs, r, d) > 0
  {
    if r > 0 {
      BeforePositive(divs, kvs, r - 1, d);
      if kvs[r - 1].dim == d {
        MulPos(Before(kvs, r - 1, d), kvs[r - 1].size);
      }
    }
  }

  /** The stride of round r: the product of the earlier rounds along its dimension when groups are
      contiguous, of the later ones when they are matched round-robin. */
  function Stride(kvs: seq<DimK>, contiguous: bool, r: nat): nat
    requires r < |kvs|
  {
    if contiguous then Before(kvs, r, kvs[r].dim) else After(kvs, r + 1, kvs[r].dim)
  }

  method FillSteps(divs: seq<nat>, kvs: seq<DimK>, contiguous: bool) returns (steps: seq<nat>)
    requires Tiles(divs, kvs)
    ensures |steps| == |kvs| && forall r :: 0 <= r < |kvs| ==> steps[r] == Stride(kvs, contiguous, r)
  {
    steps := [];
    if contiguous {
      var curSteps := seq(|divs|, _ => 1);
      for r := 0 to |kvs|
        invariant |curSteps| == |divs| && |steps| == r
        invariant forall d :: 0 <= d < |divs| ==> curSteps[d] == Before(kvs, r, d)
        invariant forall i :: 0 <= i < r ==> steps[i] == Stride(kvs, true, i)
      {
        var d := kvs[r].dim;
        steps := steps + [curSteps[d]];
        curSteps := curSteps[d := curSteps[d] * kvs[r].size];
      }
    } else {
      var curSteps := divs;
      for r := 0 to |kvs|
        invariant |curSteps| == |divs| && |steps| == r
        invariant forall d :: 0 <= d < |divs| ==> curSteps[d] == After(kvs, r, d)
        invariant forall i :: 0 <= i < r ==> steps[i] == Stride(kvs, false, i)
      {
        var d := kvs[r].dim;
        assert After(kvs, r, d) / kvs[r].size == After(kvs, r + 1, d) by {
          DivUnique(After(kvs, r, d), kvs[r].size, After(kvs, r + 1, d), 0);
        }
        curSteps := curSteps[d := curSteps[d] / kvs[r].size];
        steps := steps + [curSteps[d]];
      }
    }
  }
}
