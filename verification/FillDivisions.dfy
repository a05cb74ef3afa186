/** fill_divisions: how many blocks go along each dimension when some numbers are left open. */
module FillDivisions {
  import opened Arith
  import opened Options
  import opened Coordinates
  import opened GridAxis

  // ---------- factoring ----------

  function Times(s: seq<nat>): nat {
    if s == [] then 1 else Times(s[..|s| - 1]) * s[|s| - 1]
  }

  ghost predicate NoneBelow(n: nat, d: nat) {
    forall e :: 2 <= e < d ==> n % e != 0
  }

  ghost predicate SmallestDivisor(n: nat, d: nat) {
    2 <= d <= n && n % d == 0 && NoneBelow(n, d)
  }

  /** A smallest divisor has no divisors of its own. */
  lemma SmallestIsPrime(n: nat, d: nat, e: nat)
    requires SmallestDivisor(n, d) && 2 <= e < d
    ensures d % e != 0
  {
    if d % e == 0 {
      var q, p := n / d, d / e;
      assert n == q * d && d == p * e;
      MulAssoc(q, p, e);
      DivUnique(n, e, q * p, 0);
    }
  }

  lemma QuotientShrinks(n: nat, i: nat)
    requires n > 1 && 2 <= i <= n && n % i == 0
    ensures 1 <= n / i < n && n == (n / i) * i
  {
    DivNonneg(n, i);
    var q := n / i;
    assert n == q * i;
    if q < 1 { MulMono(q, 0, i); }
    MulMono(2, i, q);
    assert q * i == i * q;
  }

  ghost predicate IsPrime(d: nat) {
    d >= 2 && forall e :: 2 <= e < d ==> d % e != 0
  }

  /** The smallest divisor of n that is at least i. */
  function LeastDivisor(n: nat, i: nat): (d: nat)
    requires 2 <= i <= n
    ensures i <= d <= n
    decreases n - i
  {
    if i == n || n % i == 0 then i else LeastDivisor(n, i + 1)
  }

  lemma {:induction false} LeastIsSmallest(n: nat, i: nat)
    requires 2 <= i <= n && NoneBelow(n, i)
    ensures SmallestDivisor(n, LeastDivisor(n, i))
    decreases n - i
  {
    if i == n {
      DivUnique(n, n, 1, 0);
    } else if n % i != 0 {
      LeastIsSmallest(n, i + 1);
    }
  }

  /** The inner loop of `factor`. */
  method SmallestFactor(rest: nat) returns (i: nat)
    requires rest > 1
    ensures i == LeastDivisor(rest, 2)
  {
    i := 2;
    while i < rest && rest % i != 0
      invariant 2 <= i <= rest && LeastDivisor(rest, 2) == LeastDivisor(rest, i)
    {
      i := i + 1;
    }
  }

  lemma SmallestAlwaysPrime(n: nat, d: nat)
    requires SmallestDivisor(n, d)
    ensures IsPrime(d)
  {
    forall e | 2 <= e < d ensures d % e != 0 {
      SmallestIsPrime(n, d, e);
    }
  }

  function Primes(n: nat): seq<nat>
    requires n >= 1
  {
    if n == 1 then []
    else
      var d := LeastDivisor(n, 2);
      LeastIsSmallest(n, 2);
      QuotientShrinks(n, d);
      [d] + Primes(n / d)
  }

  method Factor(n: nat) returns (factors: seq<nat>)
    requires n >= 1
    ensures factors == Primes(n)
  {
    factors := [];
    var rest := n;
    while rest != 1
      invariant rest >= 1 && factors + Primes(rest) == Primes(n)
      decreases rest
    {
      var i := SmallestFactor(rest);
      LeastIsSmallest(rest, 2);
      QuotientShrinks(rest, i);
      assert Primes(rest) == [i] + Primes(rest / i);
      assert factors + ([i] + Primes(rest / i)) == factors + [i] + Primes(rest / i);
      factors := factors + [i];
      rest := rest / i;
    }
  }

  lemma {:induction false} TimesCons(x: nat, s: seq<nat>)
    ensures Times([x] + s) == x * Times(s)
  {
    if s == [] {
      assert [x] + s == [] + [x];
    } else {
      var n := |s| - 1;
      TimesCons(x, s[..n]);
      assert ([x] + s)[..n + 1] == [x] + s[..n];
      MulAssoc(x, Times(s[..n]), s[n]);
    }
  }

  /** A divisor of a quotient divides the whole, so it is no smaller than the smallest divisor. */
  lemma QuotientDivisor(n: nat, d: nat, e: nat)
    requires SmallestDivisor(n, d) && n / d > 1 && SmallestDivisor(n / d, e)
    ensures d <= e
  {
    var q := n / d;
    var p := q / e;
    assert n == q * d && q == p * e;
    MulAssoc(p, e, d);
    assert e * d == d * e;
    MulAssoc(p, d, e);
    DivUnique(n, e, p * d, 0);
  }

  lemma PrimesUnfold(n: nat) returns (d: nat)
    requires n > 1
    ensures SmallestDivisor(n, d) && 1 <= n / d < n && n == (n / d) * d && Primes(n) == [d] + Primes(n / d)
  {
    d := LeastDivisor(n, 2);
    LeastIsSmallest(n, 2);
    QuotientShrinks(n, d);
  }

  lemma TimesFirst(d: nat, s: seq<nat>, rest: nat, n: nat)
    requires Times(s) == rest && n == rest * d
    ensures Times([d] + s) == n
  {
    TimesCons(d, s);
    assert d * rest == rest * d;
  }

  lemma {:induction false} PrimesMultiply(n: nat)
    requires n >= 1
    ensures Times(Primes(n)) == n
    decreases n
  {
    if n > 1 {
      var d := PrimesUnfold(n);
      PrimesMultiply(n / d);
      TimesFirst(d, Primes(n / d), n / d, n);
    }
  }

  lemma AscendingCons(d: nat, s: seq<nat>)
    requires s != [] ==> d <= s[0]
    requires forall j, k :: 0 <= j < k < |s| ==> s[j] <= s[k]
    ensures forall j, k :: 0 <= j < k < |[d] + s| ==> ([d] + s)[j] <= ([d] + s)[k]
  {
  }

  lemma {:induction false} PrimesAscend(n: nat)
    requires n >= 1
    ensures forall k :: 0 <= k < |Primes(n)| ==> IsPrime(Primes(n)[k])
    ensures forall j, k :: 0 <= j < k < |Primes(n)| ==> Primes(n)[j] <= Primes(n)[k]
    decreases n
  {
    if n > 1 {
      var d := PrimesUnfold(n);
      SmallestAlwaysPrime(n, d);
      PrimesAscend(n / d);
      if n / d > 1 {
        var e := PrimesUnfold(n / d);
        QuotientDivisor(n, d, e);
      }
      AscendingCons(d, Primes(n / d));
    }
  }

  /** `factor` yields primes in ascending order whose product is n. */
  lemma PrimesSpec(n: nat)
    requires n >= 1
    ensures Times(Primes(n)) == n
    ensures forall k :: 0 <= k < |Primes(n)| ==> IsPrime(Primes(n)[k])
    ensures forall j, k :: 0 <= j < k < |Primes(n)| ==> Primes(n)[j] <= Primes(n)[k]
  {
    PrimesMultiply(n);
    PrimesAscend(n);
  }

  // ---------- distributing the factors ----------

  /** A dimension still open: its blocks so far and their size. */
  datatype Div = Div(dim: nat, nb: nat, size: int)

  /** Descending block size, then ascending number of blocks, then ascending dimension. */
  predicate Before(a: Div, b: Div) {
    if a.size == b.size then (if a.nb == b.nb then a.dim < b.dim else a.nb < b.nb) else a.size > b.size
  }

  /** The one that sorting would bring to the front. */
  function Leading(divs: seq<Div>): (at: nat)
    requires divs != []
    ensures at < |divs| && forall i :: 0 <= i < |divs| ==> !Before(divs[i], divs[at])
  {
    var n := |divs| - 1;
    if n == 0 then 0
    else var at := Leading(divs[..n]); if Before(divs[n], divs[at]) then n else at
  }

  /** It is of the longest, of those of the ones cut into fewest blocks, and of those the first. */
  lemma LeadingIs(divs: seq<Div>, i: nat)
    requires i < |divs|
    ensures divs[i].size <= divs[Leading(divs)].size
    ensures divs[i].size == divs[Leading(divs)].size ==> divs[i].nb >= divs[Leading(divs)].nb
    ensures divs[i].size == divs[Leading(divs)].size && divs[i].nb == divs[Leading(divs)].nb ==>
              divs[i].dim >= divs[Leading(divs)].dim
  {
    assert !Before(divs[i], divs[Leading(divs)]);
  }

  method Front(divs: seq<Div>) returns (at: nat)
    requires divs != []
    ensures at == Leading(divs)
  {
    at := 0;
    for i := 1 to |divs|
      invariant at < i && at == Leading(divs[..i])
    {
      assert divs[..i + 1][..i] == divs[..i];
      if Before(divs[i], divs[at]) {
        at := i;
      }
    }
    assert divs[..|divs|] == divs;
  }

  function Blocks(divs: seq<Div>): nat {
    if divs == [] then 1 else Blocks(divs[..|divs| - 1]) * divs[|divs| - 1].nb
  }

  lemma {:induction false} BlocksScaled(divs: seq<Div>, i: nat, d: Div, f: nat)
    requires i < |divs| && d.nb == divs[i].nb * f
    ensures Blocks(divs[i := d]) == Blocks(divs) * f
    decreases |divs|
  {
    var n := |divs| - 1;
    var less, last := Blocks(divs[..n]), divs[n].nb;
    if i == n {
      assert divs[i := d][..n] == divs[..n];
      MulAssoc(less, last, f);
    } else {
      BlocksScaled(divs[..n], i, d, f);
      assert divs[i := d][..n] == divs[..n][i := d];
      MulAssoc(less, f, last);
      MulAssoc(less, last, f);
      assert f * last == last * f;
    }
  }

  /** A block along the axis, cut into n, is not empty; with unshared faces it is at least one wide. */
  ghost predicate Fits(a: Axis, n: nat)
    requires n > 0
  {
    !a.shared ==> a.(n := n).Valid()
  }

  ghost predicate Dividing(axes: seq<Axis>, divs: seq<Div>) {
    divs != [] && forall k :: 0 <= k < |divs| ==> divs[k].dim < |axes| && divs[k].nb > 0
  }

  /** Deals the factors out, the largest first, each to the dimension whose blocks are largest by then;
      None if that leaves a block empty. */
  ghost function Deal(axes: seq<Axis>, divs: seq<Div>, factors: seq<nat>): Option<seq<Div>>
    requires Dividing(axes, divs) && forall k :: 0 <= k < |factors| ==> factors[k] > 0
    decreases |factors|
  {
    var n := |factors| - 1;
    if n < 0 then Some(divs)
    else
      var at := Leading(divs);
      var d := divs[at];
      MulPos(d.nb, factors[n]);
      var a := axes[d.dim].(n := d.nb * factors[n]);
      if a.To(0) < a.From(0) then None
      else Deal(axes, divs[at := Div(d.dim, d.nb * factors[n], a.To(0) - a.From(0))], factors[..n])
  }

  method Distribute(axes: seq<Axis>, open: seq<Div>, factors: seq<nat>) returns (divs: Option<seq<Div>>)
    requires Dividing(axes, open) && forall k :: 0 <= k < |factors| ==> factors[k] > 0
    ensures divs == Deal(axes, open, factors)
  {
    var current := open;
    var f := |factors|;
    assert factors[..f] == factors;
    while f > 0
      invariant 0 <= f <= |factors| && Dividing(axes, current)
      invariant Deal(axes, open, factors) == Deal(axes, current, factors[..f])
    {
      f := f - 1;
      assert factors[..f + 1][..f] == factors[..f];
      var at := Front(current);
      var d := current[at];
      MulPos(d.nb, factors[f]);
      var a := axes[d.dim].(n := d.nb * factors[f]);
      var min, max := a.From(0), a.To(0);
      if max < min {
        return None;
      }
      current := current[at := Div(d.dim, d.nb * factors[f], max - min)];
    }
    divs := Some(current);
  }

  /** Dealing keeps the dimensions, multiplies the blocks by the factors, and leaves no block empty. */
  lemma {:induction false} DealSpec(axes: seq<Axis>, divs: seq<Div>, factors: seq<nat>)
    requires Dividing(axes, divs) && forall k :: 0 <= k < |factors| ==> factors[k] > 0
    requires forall i :: 0 <= i < |axes| ==> axes[i].min <= axes[i].max
    requires forall k :: 0 <= k < |divs| ==> Fits(axes[divs[k].dim], divs[k].nb)
    requires Deal(axes, divs, factors).Some?
    ensures var dealt := Deal(axes, divs, factors).value;
            && |dealt| == |divs| && Blocks(dealt) == Blocks(divs) * Times(factors)
            && forall k :: 0 <= k < |divs| ==>
                 dealt[k].dim == divs[k].dim && dealt[k].nb > 0 && Fits(axes[divs[k].dim], dealt[k].nb)
    decreases |factors|
  {
    var n := |factors| - 1;
    if n >= 0 {
      var at := Leading(divs);
      var d := divs[at];
      MulPos(d.nb, factors[n]);
      var a := axes[d.dim].(n := d.nb * factors[n]);
      FirstFits(a);
      var d' := Div(d.dim, d.nb * factors[n], a.To(0) - a.From(0));
      BlocksScaled(divs, at, d', factors[n]);
      DealSpec(axes, divs[at := d'], factors[..n]);
      MulAssoc(Blocks(divs), factors[n], Times(factors[..n]));
      assert factors[n] * Times(factors[..n]) == Times(factors[..n]) * factors[n];
    }
  }

  lemma FirstFits(a: Axis)
    requires a.n > 0 && a.min <= a.max
    ensures a.To(0) >= a.From(0) <==> Fits(a, a.n)
  {
    if !a.shared && a.n > 1 {
      var w := a.Width();
      DivNonneg(a.Period(), a.n);
      if w >= 1 { MulMono(1, w, a.n); }
      if w < 1 { DivUnique(a.Period(), a.n, 0, a.Period()); }
    }
  }

  lemma {:induction false} AllOnes(divs: seq<Div>)
    requires forall k :: 0 <= k < |divs| ==> divs[k].nb == 1
    ensures Blocks(divs) == 1
  {
    if divs != [] { AllOnes(divs[..|divs| - 1]); }
  }

  // ---------- all divisions ----------

  /** The product of the divisions the caller fixed. */
  function Fixed(divisions: seq<nat>): nat {
    if divisions == [] then 1
    else Fixed(divisions[..|divisions| - 1]) * if divisions[|divisions| - 1] == 0 then 1 else divisions[|divisions| - 1]
  }

  ghost predicate AllGiven(divisions: seq<nat>) {
    forall i :: 0 <= i < |divisions| ==> divisions[i] != 0
  }

  lemma {:induction false} FixedIsTimes(divisions: seq<nat>)
    requires AllGiven(divisions)
    ensures Fixed(divisions) == Times(divisions) > 0
  {
    if divisions != [] {
      FixedIsTimes(divisions[..|divisions| - 1]);
      MulPos(Times(divisions[..|divisions| - 1]), divisions[|divisions| - 1]);
    }
  }

  lemma {:induction false} FixedPositive(divisions: seq<nat>)
    ensures Fixed(divisions) > 0
  {
    if divisions != [] {
      FixedPositive(divisions[..|divisions| - 1]);
      var last := divisions[|divisions| - 1];
      MulPos(Fixed(divisions[..|divisions| - 1]), if last == 0 then 1 else last);
    }
  }

  lemma {:induction false} FixedSet(divisions: seq<nat>, i: nat, nb: nat)
    requires i < |divisions| && divisions[i] == 0 && nb > 0
    ensures Fixed(divisions[i := nb]) == Fixed(divisions) * nb
    decreases |divisions|
  {
    var n := |divisions| - 1;
    if i == n {
      assert divisions[i := nb][..n] == divisions[..n];
    } else {
      FixedSet(divisions[..n], i, nb);
      assert divisions[i := nb][..n] == divisions[..n][i := nb];
      var less, last := Fixed(divisions[..n]), if divisions[n] == 0 then 1 else divisions[n];
      MulAssoc(less, nb, last);
      MulAssoc(less, last, nb);
      assert nb * last == last * nb;
    }
  }

  /** The dimensions left open, in order. */
  function Open(divisions: seq<nat>, axes: seq<Axis>, n: nat): seq<Div>
    requires n <= |divisions| == |axes|
  {
    if n == 0 then []
    else Open(divisions, axes, n - 1) + if divisions[n - 1] == 0
        then [Div(n - 1, 1, axes[n - 1].max - axes[n - 1].min)] else []
  }

  lemma {:induction false} OpenSpec(divisions: seq<nat>, axes: seq<Axis>, n: nat)
    requires n <= |divisions| == |axes|
    ensures var open := Open(divisions, axes, n);
            && (forall k :: 0 <= k < |open| ==> open[k].dim < n && open[k].nb == 1 && divisions[open[k].dim] == 0)
            && (forall j, k :: 0 <= j < k < |open| ==> open[j].dim < open[k].dim)
            && (forall i :: 0 <= i < n && divisions[i] == 0 ==> exists k :: 0 <= k < |open| && open[k].dim == i)
  {
    if n > 0 {
      OpenSpec(divisions, axes, n - 1);
      var less, open := Open(divisions, axes, n - 1), Open(divisions, axes, n);
      forall i | 0 <= i < n && divisions[i] == 0 ensures exists k :: 0 <= k < |open| && open[k].dim == i {
        if i < n - 1 {
          var k :| 0 <= k < |less| && less[k].dim == i;
          assert open[k].dim == i;
        } else {
          assert open[|less|].dim == i;
        }
      }
    }
  }

  lemma {:induction false} OpenSizes(divisions: seq<nat>, axes: seq<Axis>, n: nat, k: nat)
    requires n <= |divisions| == |axes| && k < |Open(divisions, axes, n)|
    ensures var open := Open(divisions, axes, n)[k];
            open.dim < n && open.size == axes[open.dim].max - axes[open.dim].min
  {
    var less := Open(divisions, axes, n - 1);
    if k < |less| {
      OpenSizes(divisions, axes, n - 1, k);
    }
  }

  /** The last loop: writes the numbers found into the open dimensions. */
  ghost function Assigned(divisions: seq<nat>, divs: seq<Div>): (filled: seq<nat>)
    requires forall k :: 0 <= k < |divs| ==> divs[k].dim < |divisions|
    ensures |filled| == |divisions|
    decreases |divs|
  {
    var n := |divs| - 1;
    if n < 0 then divisions else Assigned(divisions, divs[..n])[divs[n].dim := divs[n].nb]
  }

  lemma OpenDividing(divisions: seq<nat>, axes: seq<Axis>)
    requires |divisions| == |axes| && !AllGiven(divisions)
    ensures Dividing(axes, Open(divisions, axes, |divisions|))
  {
    OpenSpec(divisions, axes, |divisions|);
  }

  lemma PrimesPositive(n: nat)
    requires n >= 1
    ensures forall k :: 0 <= k < |Primes(n)| ==> Primes(n)[k] > 0
  {
    PrimesSpec(n);
  }

  /** What the open dimensions are dealt. */
  ghost function DealtOpen(divisions: seq<nat>, axes: seq<Axis>, nblocks: nat): Option<seq<Div>>
    requires |divisions| == |axes| && nblocks > 0 && !AllGiven(divisions)
    requires Fixed(divisions) > 0 && nblocks % Fixed(divisions) == 0
  {
    ExactQuotient(nblocks, Fixed(divisions));
    OpenDividing(divisions, axes);
    PrimesPositive(nblocks / Fixed(divisions));
    Deal(axes, Open(divisions, axes, |divisions|), Primes(nblocks / Fixed(divisions)))
  }

  lemma DealtOpenSpec(divisions: seq<nat>, axes: seq<Axis>, nblocks: nat)
    requires |divisions| == |axes| && nblocks > 0 && !AllGiven(divisions)
    requires forall i :: 0 <= i < |axes| ==> axes[i].min <= axes[i].max
    requires Fixed(divisions) > 0 && nblocks % Fixed(divisions) == 0
    requires DealtOpen(divisions, axes, nblocks).Some?
    ensures var dealt, open := DealtOpen(divisions, axes, nblocks).value, Open(divisions, axes, |divisions|);
            && |dealt| == |open| && Fixed(divisions) * Blocks(dealt) == nblocks
            && forall k :: 0 <= k < |open| ==>
                 open[k].dim < |axes| && dealt[k].dim == open[k].dim && dealt[k].nb > 0
                     && Fits(axes[open[k].dim], dealt[k].nb)
  {
    var open, rest := Open(divisions, axes, |divisions|), nblocks / Fixed(divisions);
    ExactQuotient(nblocks, Fixed(divisions));
    OpenSpec(divisions, axes, |divisions|);
    OpenDividing(divisions, axes);
    PrimesSpec(rest);
    AllOnes(open);
    DealSpec(axes, open, Primes(rest));
    assert Fixed(divisions) * rest == rest * Fixed(divisions);
  }

  ghost predicate Fillable(divisions: seq<nat>, axes: seq<Axis>, nblocks: nat)
    requires |divisions| == |axes| && nblocks > 0
  {
    FixedPositive(divisions);
    nblocks % Fixed(divisions) == 0 && (AllGiven(divisions) || DealtOpen(divisions, axes, nblocks).Some?)
  }

  /** The divisions fill_divisions settles on, when it does not throw. */
  ghost function Filled(divisions: seq<nat>, axes: seq<Axis>, nblocks: nat): seq<nat>
    requires |divisions| == |axes| && nblocks > 0 && Fillable(divisions, axes, nblocks)
    requires forall i :: 0 <= i < |axes| ==> axes[i].min <= axes[i].max
  {
    if AllGiven(divisions) then divisions
    else
      FixedPositive(divisions);
      DealtOpenSpec(divisions, axes, nblocks);
      Assigned(divisions, DealtOpen(divisions, axes, nblocks).value)
  }

  /** fill_divisions; the thrown errors are None. */
  method Fill(divisions: seq<nat>, axes: seq<Axis>, nblocks: nat) returns (r: Option<seq<nat>>)
    requires |divisions| == |axes| && nblocks > 0 && forall i :: 0 <= i < |axes| ==> axes[i].min <= axes[i].max
    ensures r.Some? <==> Fillable(divisions, axes, nblocks)
    ensures r.Some? ==> r.value == Filled(divisions, axes, nblocks)
  {
    var prod, c := 1, 0;
    for i := 0 to |divisions|
      invariant prod == Fixed(divisions[..i]) > 0 && 0 <= c <= i
      invariant c == i <==> AllGiven(divisions[..i])
    {
      assert divisions[..i + 1][..i] == divisions[..i];
      assert AllGiven(divisions[..i + 1]) <==> AllGiven(divisions[..i]) && divisions[i] != 0 by {
        if AllGiven(divisions[..i + 1]) {
          forall k | 0 <= k < i ensures divisions[..i][k] != 0 { assert divisions[..i + 1][k] != 0; }
          assert divisions[..i + 1][i] != 0;
        }
      }
      if divisions[i] != 0 {
        MulPos(prod, divisions[i]);
        prod := prod * divisions[i];
        c := c + 1;
      }
    }
    assert divisions[..|divisions|] == divisions;
    if nblocks % prod != 0 {
      return None;
    }
    if c == |divisions| {
      return Some(divisions);
    }
    r := FillOpen(divisions, axes, nblocks, prod);
  }

  method FillOpen(divisions: seq<nat>, axes: seq<Axis>, nblocks: nat, prod: nat) returns (r: Option<seq<nat>>)
    requires |divisions| == |axes| && nblocks > 0 && forall i :: 0 <= i < |axes| ==> axes[i].min <= axes[i].max
    requires prod == Fixed(divisions) > 0 && nblocks % prod == 0 && !AllGiven(divisions)
    ensures r.Some? <==> DealtOpen(divisions, axes, nblocks).Some?
    ensures r.Some? ==> Fillable(divisions, axes, nblocks) && r.value == Filled(divisions, axes, nblocks)
  {
    ExactQuotient(nblocks, prod);
    var factors := Factor(nblocks / prod);
    PrimesPositive(nblocks / prod);
    OpenDividing(divisions, axes);
    var open := Open(divisions, axes, |divisions|);
    var divs := Distribute(axes, open, factors);
    if divs.None? {
      return None;
    }
    DealtOpenSpec(divisions, axes, nblocks);
    var filled := Assign(divisions, divs.value);
    return Some(filled);
  }

  method Assign(divisions: seq<nat>, divs: seq<Div>) returns (filled: seq<nat>)
    requires forall k :: 0 <= k < |divs| ==> divs[k].dim < |divisions|
    ensures filled == Assigned(divisions, divs)
  {
    filled := divisions;
    for k := 0 to |divs|
      invariant filled == Assigned(divisions, divs[..k])
    {
      assert divs[..k + 1][..k] == divs[..k];
      filled := filled[divs[k].dim := divs[k].nb];
    }
    assert divs[..|divs|] == divs;
  }

  /** Writing into open dimensions, each once, multiplies what was fixed by what was dealt. */
  lemma {:induction false} AssignedSpec(divisions: seq<nat>, divs: seq<Div>)
    requires forall k :: 0 <= k < |divs| ==> divs[k].dim < |divisions| && divs[k].nb > 0 && divisions[divs[k].dim] == 0
    requires forall j, k :: 0 <= j < k < |divs| ==> divs[j].dim < divs[k].dim
    ensures var filled := Assigned(divisions, divs);
            && Fixed(filled) == Fixed(divisions) * Blocks(divs)
            && (forall k :: 0 <= k < |divs| ==> filled[divs[k].dim] == divs[k].nb)
            && (forall i :: 0 <= i < |divisions| && (forall k :: 0 <= k < |divs| ==> divs[k].dim != i) ==>
                filled[i] == divisions[i])
    decreases |divs|
  {
    var n := |divs| - 1;
    if n >= 0 {
      AssignedSpec(divisions, divs[..n]);
      var less := Assigned(divisions, divs[..n]);
      assert less[divs[n].dim] == divisions[divs[n].dim];
      FixedSet(less, divs[n].dim, divs[n].nb);
      MulAssoc(Fixed(divisions), Blocks(divs[..n]), divs[n].nb);
    }
  }

  /** What the caller fixed is kept and every open dimension is filled so that no block is empty. */
  lemma FilledKeeps(divisions: seq<nat>, axes: seq<Axis>, nblocks: nat)
    requires |divisions| == |axes| && nblocks > 0 && Fillable(divisions, axes, nblocks)
    requires forall i :: 0 <= i < |axes| ==> axes[i].min <= axes[i].max
    ensures var filled := Filled(divisions, axes, nblocks);
            && |filled| == |divisions| && AllGiven(filled)
            && (forall i :: 0 <= i < |divisions| && divisions[i] != 0 ==> filled[i] == divisions[i])
            && (forall i :: 0 <= i < |divisions| && divisions[i] == 0 ==> filled[i] > 0 && Fits(axes[i], filled[i]))
            && (!AllGiven(divisions) ==> Times(filled) == nblocks)
  {
    if !AllGiven(divisions) {
      FixedPositive(divisions);
      DealtOpenSpec(divisions, axes, nblocks);
      OpenSpec(divisions, axes, |divisions|);
      var open, dealt := Open(divisions, axes, |divisions|), DealtOpen(divisions, axes, nblocks).value;
      AssignedSpec(divisions, dealt);
      var filled := Filled(divisions, axes, nblocks);
      forall i | 0 <= i < |divisions| && divisions[i] == 0 ensures filled[i] > 0 && Fits(axes[i], filled[i]) {
        var k :| 0 <= k < |open| && open[k].dim == i;
        assert dealt[k].dim == i;
      }
      FixedIsTimes(filled);
    }
  }

  /** The result multiplies to the number of blocks exactly when the caller left a division open or gave
      divisions that already did. */
  lemma FilledProduct(divisions: seq<nat>, axes: seq<Axis>, nblocks: nat)
    requires |divisions| == |axes| && nblocks > 0 && Fillable(divisions, axes, nblocks)
    requires forall i :: 0 <= i < |axes| ==> axes[i].min <= axes[i].max
    ensures Times(Filled(divisions, axes, nblocks)) == nblocks <==> !AllGiven(divisions) || Times(divisions) == nblocks
  {
    FilledKeeps(divisions, axes, nblocks);
  }

  /** Divisions that are all given are accepted although they need not multiply to the number of blocks:
      eight blocks and two times two divisions. */
  lemma GivenDivisionsUnchecked(a: Axis)
    requires a.min <= a.max
    ensures Fillable([2, 2], [a, a], 8) && Filled([2, 2], [a, a], 8) == [2, 2] && Times([2, 2]) != 8
  {
    assert [2, 2][..1] == [2] && [2][..0] == [];
    assert Times([2]) == 2;
    FixedIsTimes([2, 2]);
  }

  // ---------- how even the blocks are ----------

  /** How far the first of n blocks along an axis reaches. */
  function Extent(a: Axis, n: nat): int
    requires n > 0
  {
    a.(n := n).To(0) - a.(n := n).From(0)
  }

  lemma QuotientFalls(p: nat, n: nat, m: nat)
    requires 0 < n <= m
    ensures 0 <= p / m <= p / n
  {
    DivNonneg(p, n);
    DivNonneg(p, m);
    var x, y := p / m, p / n;
    MulMono(n, m, x);
    assert x * n == n * x && x * m == m * x;
    if y + 1 <= x {
      MulMono(y + 1, x, n);
      MulDistr(y, 1, n);
    }
  }

  /** More blocks are not longer. */
  lemma ExtentFalls(a: Axis, n: nat, m: nat)
    requires a.min <= a.max && 0 < n <= m
    ensures Extent(a, m) <= Extent(a, n)
  {
    QuotientFalls(a.Period(), n, m);
    if n == 1 < m {
      QuotientFalls(a.Period(), 2, m);
    }
  }

  /** The sizes that are kept are those of the blocks. */
  ghost predicate Truthful(axes: seq<Axis>, divs: seq<Div>) {
    forall k :: 0 <= k < |divs| ==>
      divs[k].dim < |axes| && divs[k].nb > 0 && divs[k].size == Extent(axes[divs[k].dim], divs[k].nb)
  }

  ghost predicate NoLonger(axes: seq<Axis>, divs: seq<Div>, k: nat, q: nat)
    requires k < |divs| && divs[k].dim < |axes| && q > 0
  {
    forall i :: 0 <= i < |divs| ==> divs[i].size <= Extent(axes[divs[k].dim], q)
  }

  /** Before the last cut into f, the blocks along this dimension were as long as those along any other are now. */
  ghost predicate CutFrom(axes: seq<Axis>, divs: seq<Div>, k: nat, q: nat, f: nat)
    requires k < |divs| && divs[k].dim < |axes|
  {
    q > 0 && IsPrime(f) && divs[k].nb == q * f && NoLonger(axes, divs, k, q)
  }

  ghost predicate CutEvenly(axes: seq<Axis>, divs: seq<Div>, k: nat)
    requires k < |divs| && divs[k].dim < |axes|
  {
    divs[k].nb == 1 || exists q, f :: CutFrom(axes, divs, k, q, f)
  }

  ghost predicate AllEven(axes: seq<Axis>, divs: seq<Div>)
    requires forall k :: 0 <= k < |divs| ==> divs[k].dim < |axes|
  {
    forall k :: 0 <= k < |divs| ==> CutEvenly(axes, divs, k)
  }

  lemma StaysEven(axes: seq<Axis>, divs: seq<Div>, at: nat, d: Div, k: nat)
    requires at < |divs| && k < |divs| && k != at && divs[k].dim < |axes| && CutEvenly(axes, divs, k)
    requires d.size <= divs[at].size
    ensures CutEvenly(axes, divs[at := d], k)
  {
    if divs[k].nb != 1 {
      var q, f :| CutFrom(axes, divs, k, q, f);
      assert divs[at].size <= Extent(axes[divs[k].dim], q);
      assert CutFrom(axes, divs[at := d], k, q, f);
    }
  }

  lemma CutNow(axes: seq<Axis>, divs: seq<Div>, at: nat, d: Div, f: nat)
    requires Truthful(axes, divs) && divs != [] && at == Leading(divs) && IsPrime(f)
    requires d.dim == divs[at].dim && d.nb == divs[at].nb * f && d.size <= divs[at].size
    ensures CutEvenly(axes, divs[at := d], at)
  {
    var cut := divs[at := d];
    forall i | 0 <= i < |cut| ensures cut[i].size <= Extent(axes[d.dim], divs[at].nb) {
      assert !Before(divs[i], divs[at]);
    }
    assert CutFrom(axes, cut, at, divs[at].nb, f);
  }

  lemma OneCut(axes: seq<Axis>, divs: seq<Div>, at: nat, d: Div, f: nat)
    requires Truthful(axes, divs) && AllEven(axes, divs) && divs != [] && at == Leading(divs) && IsPrime(f)
    requires axes[divs[at].dim].min <= axes[divs[at].dim].max
    requires d.dim == divs[at].dim && d.nb == divs[at].nb * f > 0 && d.size == Extent(axes[d.dim], d.nb)
    ensures Truthful(axes, divs[at := d]) && AllEven(axes, divs[at := d])
  {
    MulMono(1, f, divs[at].nb);
    assert f * divs[at].nb == divs[at].nb * f;
    ExtentFalls(axes[d.dim], divs[at].nb, d.nb);
    CutNow(axes, divs, at, d, f);
    var cut := divs[at := d];
    forall k | 0 <= k < |cut| ensures CutEvenly(axes, cut, k) {
      if k != at {
        assert CutEvenly(axes, divs, k);
        StaysEven(axes, divs, at, d, k);
      }
    }
  }

  lemma {:induction false} DealEven(axes: seq<Axis>, divs: seq<Div>, factors: seq<nat>)
    requires Dividing(axes, divs) && forall k :: 0 <= k < |factors| ==> IsPrime(factors[k]) && factors[k] > 0
    requires forall i :: 0 <= i < |axes| ==> axes[i].min <= axes[i].max
    requires Truthful(axes, divs) && AllEven(axes, divs) && Deal(axes, divs, factors).Some?
    ensures Truthful(axes, Deal(axes, divs, factors).value) && AllEven(axes, Deal(axes, divs, factors).value)
    decreases |factors|
  {
    var n := |factors| - 1;
    if n >= 0 {
      var at := Leading(divs);
      var d := divs[at];
      MulPos(d.nb, factors[n]);
      var a := axes[d.dim].(n := d.nb * factors[n]);
      var d' := Div(d.dim, d.nb * factors[n], a.To(0) - a.From(0));
      OneCut(axes, divs, at, d', factors[n]);
      DealEven(axes, divs[at := d'], factors[..n]);
    }
  }

  lemma OpenEven(divisions: seq<nat>, axes: seq<Axis>)
    requires |divisions| == |axes|
    ensures var open := Open(divisions, axes, |divisions|); Truthful(axes, open) && AllEven(axes, open)
  {
    OpenSpec(divisions, axes, |divisions|);
    var open := Open(divisions, axes, |divisions|);
    forall k | 0 <= k < |open| ensures open[k].size == Extent(axes[open[k].dim], open[k].nb) {
      OpenSizes(divisions, axes, |divisions|, k);
    }
  }

  /** With n blocks along dimension i, no open dimension has longer blocks in the end. */
  ghost predicate NoneLonger(divisions: seq<nat>, axes: seq<Axis>, filled: seq<nat>, i: nat, n: nat)
    requires |divisions| == |axes| == |filled| && i < |axes| && n > 0
  {
    forall j :: 0 <= j < |axes| && divisions[j] == 0 && filled[j] > 0 ==>
      Extent(axes[j], filled[j]) <= Extent(axes[i], n)
  }

  /** The blocks come out as even as cutting the longest one each time makes them: an open dimension that has been
      divided would, with one prime factor less, have blocks at least as long as those along any open dimension. */
  lemma FilledEven(divisions: seq<nat>, axes: seq<Axis>, nblocks: nat, i: nat)
    requires |divisions| == |axes| && nblocks > 0 && Fillable(divisions, axes, nblocks)
    requires forall k :: 0 <= k < |axes| ==> axes[k].min <= axes[k].max
    requires i < |divisions| && divisions[i] == 0
    ensures var filled := Filled(divisions, axes, nblocks);
            |filled| == |divisions| && (filled[i] == 1 || exists q: nat, f: nat ::
              q > 0 && IsPrime(f) && filled[i] == q * f && NoneLonger(divisions, axes, filled, i, q))
  {
    FilledKeeps(divisions, axes, nblocks);
    var open, filled := Open(divisions, axes, |divisions|), Filled(divisions, axes, nblocks);
    assert !AllGiven(divisions);
    FixedPositive(divisions);
    ExactQuotient(nblocks, Fixed(divisions));
    OpenSpec(divisions, axes, |divisions|);
    OpenDividing(divisions, axes);
    OpenEven(divisions, axes);
    PrimesSpec(nblocks / Fixed(divisions));
    var dealt := DealtOpen(divisions, axes, nblocks).value;
    DealtOpenSpec(divisions, axes, nblocks);
    DealEven(axes, open, Primes(nblocks / Fixed(divisions)));
    AssignedSpec(divisions, dealt);
    var k :| 0 <= k < |open| && open[k].dim == i;
    assert filled[dealt[k].dim] == dealt[k].nb && CutEvenly(axes, dealt, k);
    if filled[i] != 1 {
      var q, f :| CutFrom(axes, dealt, k, q, f);
      EvenFilled(divisions, axes, filled, open, dealt, k, q);
    }
  }

  lemma EvenFilled(divisions: seq<nat>, axes: seq<Axis>, filled: seq<nat>, open: seq<Div>, dealt: seq<Div>, k: nat,
                   q: nat)
    requires |divisions| == |axes| == |filled| && |open| == |dealt| && k < |dealt| && q > 0
    requires open == Open(divisions, axes, |divisions|) && Truthful(axes, dealt)
    requires forall l :: 0 <= l < |dealt| ==> dealt[l].dim == open[l].dim && filled[dealt[l].dim] == dealt[l].nb
    requires NoLonger(axes, dealt, k, q)
    ensures NoneLonger(divisions, axes, filled, dealt[k].dim, q)
  {
    OpenSpec(divisions, axes, |divisions|);
    forall j | 0 <= j < |axes| && divisions[j] == 0 && filled[j] > 0
      ensures Extent(axes[j], filled[j]) <= Extent(axes[dealt[k].dim], q)
    {
      var l :| 0 <= l < |open| && open[l].dim == j;
      assert dealt[l].size <= Extent(axes[dealt[k].dim], q);
    }
  }

  // ---------- which domains can be filled ----------

  /** Room for n blocks along an axis. */
  predicate Room(a: Axis, n: nat) {
    a.shared || a.Period() >= n
  }

  lemma {:induction false} TimesPositive(s: seq<nat>)
    requires forall k :: 0 <= k < |s| ==> s[k] > 0
    ensures Times(s) > 0
  {
    if s != [] {
      TimesPositive(s[..|s| - 1]);
      MulPos(Times(s[..|s| - 1]), s[|s| - 1]);
    }
  }

  lemma NextFactor(nb: nat, f: nat, rest: nat, all: nat)
    requires f > 0 && rest > 0 && all == rest * f
    ensures nb * f * rest == nb * all && nb * rest <= nb * all && nb * f <= nb * all
  {
    MulAssoc(nb, f, rest);
    assert f * rest == rest * f;
    MulMono(1, f, nb * rest);
    MulMono(1, rest, nb * f);
    assert nb * rest * f == nb * (rest * f) by { MulAssoc(nb, rest, f); }
    assert rest * (nb * f) == nb * f * rest && f * (nb * rest) == nb * rest * f;
  }

  /** With room for all the factors in every open dimension the dealing never fails. */
  lemma {:induction false} DealSucceeds(axes: seq<Axis>, divs: seq<Div>, factors: seq<nat>)
    requires Dividing(axes, divs) && forall k :: 0 <= k < |factors| ==> factors[k] > 0
    requires forall i :: 0 <= i < |axes| ==> axes[i].min <= axes[i].max
    requires forall k :: 0 <= k < |divs| ==> Room(axes[divs[k].dim], divs[k].nb * Times(factors))
    ensures Deal(axes, divs, factors).Some?
    decreases |factors|
  {
    var n := |factors| - 1;
    if n >= 0 {
      var at := Leading(divs);
      var d, rest := divs[at], Times(factors[..n]);
      MulPos(d.nb, factors[n]);
      TimesPositive(factors[..n]);
      var a := axes[d.dim].(n := d.nb * factors[n]);
      FirstFits(a);
      NextFactor(d.nb, factors[n], rest, Times(factors));
      var more := divs[at := Div(d.dim, d.nb * factors[n], a.To(0) - a.From(0))];
      forall k | 0 <= k < |more| ensures Room(axes[more[k].dim], more[k].nb * rest) {
        NextFactor(divs[k].nb, factors[n], rest, Times(factors));
      }
      DealSucceeds(axes, more, factors[..n]);
    }
  }

  /** The blocks the caller left to be distributed. */
  function ToDeal(divisions: seq<nat>, nblocks: nat): nat {
    FixedPositive(divisions);
    DivNonneg(nblocks, Fixed(divisions));
    nblocks / Fixed(divisions)
  }

  /** If every open dimension alone has room for all the blocks to be distributed, it does not throw. */
  lemma {:induction false} EnoughRoom(divisions: seq<nat>, axes: seq<Axis>, nblocks: nat)
    requires |divisions| == |axes| && nblocks > 0 && forall i :: 0 <= i < |axes| ==> axes[i].min <= axes[i].max
    requires Fixed(divisions) > 0 && nblocks % Fixed(divisions) == 0
    requires forall i :: 0 <= i < |axes| && divisions[i] == 0 ==> Room(axes[i], ToDeal(divisions, nblocks))
    ensures Fillable(divisions, axes, nblocks)
  {
    if !AllGiven(divisions) {
      var open, rest := Open(divisions, axes, |divisions|), nblocks / Fixed(divisions);
      ExactQuotient(nblocks, Fixed(divisions));
      OpenSpec(divisions, axes, |divisions|);
      OpenDividing(divisions, axes);
      PrimesSpec(rest);
      PrimesPositive(rest);
      DealSucceeds(axes, open, Primes(rest));
    }
  }

  lemma {:induction false} OneDealt(divisions: seq<nat>, axes: seq<Axis>, nblocks: nat, i: nat)
    requires |divisions| == |axes| && nblocks > 0 && forall k :: 0 <= k < |axes| ==> axes[k].min <= axes[k].max
    requires i < |divisions| && forall k :: 0 <= k < |divisions| ==> (divisions[k] == 0 <==> k == i)
    requires Fillable(divisions, axes, nblocks)
    ensures ToDeal(divisions, nblocks) > 0 && Room(axes[i], ToDeal(divisions, nblocks))
  {
    assert divisions[i] == 0 && !AllGiven(divisions);
    FixedPositive(divisions);
    DealtOpenSpec(divisions, axes, nblocks);
    OnlyOpen(divisions, axes, i);
    var dealt := DealtOpen(divisions, axes, nblocks).value;
    OneBlocks(dealt);
    ExactQuotient(nblocks, Fixed(divisions));
    QuotientOf(nblocks, Fixed(divisions), dealt[0].nb);
  }

  lemma QuotientOf(n: nat, m: nat, q: nat)
    requires m > 0 && m * q == n
    ensures n / m == q
  {
    assert m * q == q * m;
    DivUnique(n, m, q, 0);
  }

  lemma OneBlocks(divs: seq<Div>)
    requires |divs| == 1
    ensures Blocks(divs) == divs[0].nb
  {
    assert divs[..0] == [];
    assert Blocks([]) == 1 && Blocks(divs) == Blocks(divs[..0]) * divs[0].nb;
  }

  lemma FirstTwo(open: seq<Div>)
    requires forall j, k :: 0 <= j < k < |open| ==> open[j].dim < open[k].dim
    ensures |open| > 1 ==> open[0].dim < open[1].dim
  {
  }

  lemma {:induction false} OnlyOpen(divisions: seq<nat>, axes: seq<Axis>, i: nat)
    requires i < |divisions| == |axes| && forall k :: 0 <= k < |divisions| ==> (divisions[k] == 0 <==> k == i)
    ensures |Open(divisions, axes, |divisions|)| == 1 && Open(divisions, axes, |divisions|)[0].dim == i
  {
    OpenSpec(divisions, axes, |divisions|);
    var open := Open(divisions, axes, |divisions|);
    assert divisions[i] == 0;
    var k :| 0 <= k < |open| && open[k].dim == i;
    FirstTwo(open);
  }

  /** With a single dimension open that is also what it takes. */
  lemma {:induction false} OneOpen(divisions: seq<nat>, axes: seq<Axis>, nblocks: nat, i: nat)
    requires |divisions| == |axes| && nblocks > 0 && forall k :: 0 <= k < |axes| ==> axes[k].min <= axes[k].max
    requires i < |divisions| && forall k :: 0 <= k < |divisions| ==> (divisions[k] == 0 <==> k == i)
    ensures Fixed(divisions) > 0
    ensures Fillable(divisions, axes, nblocks) <==>
              nblocks % Fixed(divisions) == 0 && Room(axes[i], ToDeal(divisions, nblocks))
  {
    FixedPositive(divisions);
    if Fillable(divisions, axes, nblocks) {
      OneDealt(divisions, axes, nblocks, i);
    }
    if nblocks % Fixed(divisions) == 0 && Room(axes[i], ToDeal(divisions, nblocks)) {
      EnoughRoom(divisions, axes, nblocks);
    }
  }

  lemma PrimesOfTwelve()
    ensures Primes(12) == [2, 2, 3]
  {
    assert LeastDivisor(12, 2) == 2 && LeastDivisor(6, 2) == 2;
    assert LeastDivisor(3, 2) == LeastDivisor(3, 3) == 3;
    assert Primes(1) == [] && Primes(3) == [3] && Primes(6) == [2] + Primes(3) && Primes(12) == [2] + Primes(6);
  }

  /** One factor dealt to the leading dimension. */
  lemma {:induction false} DealOne(axes: seq<Axis>, divs: seq<Div>, at: nat, factors: seq<nat>, f: nat, a: Axis)
    requires Dividing(axes, divs) && (forall k :: 0 <= k < |factors| ==> factors[k] > 0) && f > 0
    requires at == Leading(divs) && a == axes[divs[at].dim].(n := divs[at].nb * f) && a.n > 0
    ensures Deal(axes, divs, factors + [f])
         == if a.To(0) < a.From(0) then None
            else Deal(axes, divs[at := Div(divs[at].dim, a.n, a.To(0) - a.From(0))], factors)
  {
    assert (factors + [f])[..|factors|] == factors;
  }

  lemma {:induction false} DealTwelve(axes: seq<Axis>, x: Axis, y: Axis)
    requires axes == [x, y] && x.min == 0 && x.max == 3 && y.min == 0 && y.max == 2 && !x.shared && !y.shared
    ensures Deal(axes, [Div(0, 1, 3), Div(1, 1, 2)], [2, 2, 3]).None?
  {
    TwelveThird(axes);
    TwelveSecond(axes);
    assert x.(n := 3).Width() == 1;
    LeadingOfTwo(Div(0, 1, 3), Div(1, 1, 2));
    DealOne(axes, [Div(0, 1, 3), Div(1, 1, 2)], 0, [2, 2], 3, x.(n := 3));
    assert [Div(0, 1, 3), Div(1, 1, 2)][0 := Div(0, 3, 0)] == [Div(0, 3, 0), Div(1, 1, 2)];
    assert [2, 2] + [3] == [2, 2, 3];
  }

  lemma {:induction false} TwelveSecond(axes: seq<Axis>)
    requires |axes| == 2 && axes[1].min == 0 && axes[1].max == 2 && !axes[1].shared
    ensures Deal(axes, [Div(0, 3, 0), Div(1, 1, 2)], [2, 2]) == Deal(axes, [Div(0, 3, 0), Div(1, 2, 0)], [2])
  {
    assert axes[1].(n := 2).Width() == 1;
    LeadingOfTwo(Div(0, 3, 0), Div(1, 1, 2));
    DealOne(axes, [Div(0, 3, 0), Div(1, 1, 2)], 1, [2], 2, axes[1].(n := 2));
    assert [Div(0, 3, 0), Div(1, 1, 2)][1 := Div(1, 2, 0)] == [Div(0, 3, 0), Div(1, 2, 0)];
    assert [2] + [2] == [2, 2];
  }

  lemma {:induction false} TwelveThird(axes: seq<Axis>)
    requires |axes| == 2 && axes[1].min == 0 && axes[1].max == 2 && !axes[1].shared
    ensures Deal(axes, [Div(0, 3, 0), Div(1, 2, 0)], [2]) == None
  {
    assert axes[1].(n := 4).Width() == 0;
    LeadingOfTwo(Div(0, 3, 0), Div(1, 2, 0));
    DealOne(axes, [Div(0, 3, 0), Div(1, 2, 0)], 1, [], 2, axes[1].(n := 4));
    assert [] + [2] == [2];
  }

  lemma LeadingOfTwo(a: Div, b: Div)
    ensures Leading([a, b]) == if Before(b, a) then 1 else 0
  {
    assert [a, b][..1] == [a];
  }

  /** Dimension i is open and no open dimension is longer, nor as long and before it. */
  ghost predicate Longest(divisions: seq<nat>, axes: seq<Axis>, i: nat)
    requires |divisions| == |axes|
  {
    i < |divisions| && divisions[i] == 0
      && forall j :: 0 <= j < |divisions| && divisions[j] == 0 ==> !Longer(axes, j, i)
  }

  ghost predicate Longer(axes: seq<Axis>, j: nat, i: nat)
    requires i < |axes| && j < |axes|
  {
    axes[j].max - axes[j].min > axes[i].max - axes[i].min
      || (axes[j].max - axes[j].min == axes[i].max - axes[i].min && j < i)
  }

  lemma LongestLeads(divisions: seq<nat>, axes: seq<Axis>, i: nat)
    requires |divisions| == |axes| && Longest(divisions, axes, i)
    ensures var open := Open(divisions, axes, |divisions|); open != [] && open[Leading(open)].dim == i
  {
    var open := Open(divisions, axes, |divisions|);
    OpenSpec(divisions, axes, |divisions|);
    var k :| 0 <= k < |open| && open[k].dim == i;
    OpenSizes(divisions, axes, |divisions|, k);
    OpenSizes(divisions, axes, |divisions|, Leading(open));
    var lead := open[Leading(open)];
    assert !Before(open[k], lead) && !Longer(axes, lead.dim, i);
  }

  lemma PrimesOfPrime(q: nat)
    requires IsPrime(q)
    ensures Primes(q) == [q]
  {
    var d := PrimesUnfold(q);
    DivUnique(q, q, 1, 0);
  }

  /** A prime number of blocks all goes to the longest open dimension, and it throws exactly if there is no
      room for them there, however much there is elsewhere. */
  lemma {:induction false} OnePrime(divisions: seq<nat>, axes: seq<Axis>, nblocks: nat, i: nat)
    requires |divisions| == |axes| && nblocks > 0 && forall k :: 0 <= k < |axes| ==> axes[k].min <= axes[k].max
    requires Longest(divisions, axes, i) && IsPrime(ToDeal(divisions, nblocks))
    ensures Fixed(divisions) > 0
    ensures Fillable(divisions, axes, nblocks) <==>
              nblocks % Fixed(divisions) == 0 && Room(axes[i], ToDeal(divisions, nblocks))
  {
    FixedPositive(divisions);
    if nblocks % Fixed(divisions) == 0 {
      var open, q := Open(divisions, axes, |divisions|), ToDeal(divisions, nblocks);
      ExactQuotient(nblocks, Fixed(divisions));
      OpenSpec(divisions, axes, |divisions|);
      OpenDividing(divisions, axes);
      LongestLeads(divisions, axes, i);
      PrimesOfPrime(q);
      PrimesPositive(q);
      var a := axes[i].(n := q);
      FirstFits(a);
      DealOne(axes, open, Leading(open), [], q, a);
      assert [] + [q] == [q];
    }
  }

  /** Twelve blocks on an unshared domain of four by three cells: four by three fit, but the factors 3, 2
      and 2 go to x, y and y, and it throws. */
  lemma {:induction false} FitsButThrows(x: Axis, y: Axis)
    requires x.min == 0 && x.max == 3 && y.min == 0 && y.max == 2 && !x.shared && !y.shared
    ensures !Fillable([0, 0], [x, y], 12)
    ensures Fits(x, 4) && Fits(y, 3) && Times([4, 3]) == 12
  {
    var divisions: seq<nat>, axes := [0, 0], [x, y];
    assert divisions[..1] == [0] && divisions[..1][..0] == [];
    assert Fixed([0]) == Fixed([]) * 1 && Fixed(divisions) == Fixed([0]) * 1;
    assert Open(divisions, axes, 1) == [Div(0, 1, 3)];
    assert Open(divisions, axes, 2) == [Div(0, 1, 3), Div(1, 1, 2)];
    PrimesOfTwelve();
    DealTwelve(axes, x, y);
    assert divisions[0] == 0 && !AllGiven(divisions);
    assert [4, 3][..1] == [4] && [4][..0] == [];
    assert Times([4]) == Times([]) * 4;
  }
}
