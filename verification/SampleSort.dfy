/** Sample sort: an all-gather of random samples gives all blocks equivalent dividers, an all-to-all
    exchange routes every value by them, and a local sort leaves the blocks sorted in gid order. */
module SampleSort {
  import opened Arith
  import opened Coordinates
  import opened Factoring
  import opened Groups
  import opened Schedules
  import opened WeightedSums
  import opened AllToAll
  import opened SortedOrder

  // ---------- concatenation ----------

  function Flat(parts: seq<seq<int>>): seq<int> {
    if parts == [] then [] else Flat(parts[..|parts| - 1]) + parts[|parts| - 1]
  }

  function Picked(held: seq<seq<int>>, from: seq<int>): seq<seq<int>>
    requires forall k :: 0 <= k < |from| ==> 0 <= from[k] < |held|
  {
    seq(|from|, k requires 0 <= k < |from| => held[from[k]])
  }

  /** `dequeue_values`: appends what the incoming partners sent, in link order. */
  method DequeueValues(v: seq<int>, held: seq<seq<int>>, from: seq<int>) returns (v': seq<int>)
    requires forall k :: 0 <= k < |from| ==> 0 <= from[k] < |held|
    ensures v' == v + Flat(Picked(held, from))
  {
    v' := v;
    ghost var parts := Picked(held, from);
    for k := 0 to |from|
      invariant v' == v + Flat(parts[..k])
    {
      assert parts[..k + 1][..k] == parts[..k];
      v' := v' + held[from[k]];
    }
    assert parts[..|from|] == parts;
  }

  // ---------- counting ----------

  /** How often x occurs in each block. */
  ghost function CountOf(held: seq<seq<int>>, x: int): int -> nat {
    a => if 0 <= a < |held| then multiset(held[a])[x] else 0
  }

  ghost function CountTo(held: seq<seq<int>>, x: int, n: nat): nat
    requires n <= |held|
  {
    if n == 0 then 0 else CountTo(held, x, n - 1) + multiset(held[n - 1])[x]
  }

  lemma {:induction false} FlatCount(parts: seq<seq<int>>, x: int)
    ensures multiset(Flat(parts))[x] == CountTo(parts, x, |parts|)
  {
    if parts != [] {
      var n := |parts| - 1;
      FlatCount(parts[..n], x);
      CountToPrefix(parts, x, n, n);
    }
  }

  lemma {:induction false} CountToPrefix(parts: seq<seq<int>>, x: int, m: nat, n: nat)
    requires m <= n <= |parts|
    ensures CountTo(parts, x, m) == CountTo(parts[..n], x, m)
  {
    if m > 0 { CountToPrefix(parts, x, m - 1, n); }
  }

  lemma {:induction false} CountToCons(head: seq<int>, tail: seq<seq<int>>, x: int, n: nat)
    requires n <= |tail|
    ensures CountTo([head] + tail, x, n + 1) == multiset(head)[x] + CountTo(tail, x, n)
  {
    if n > 0 { CountToCons(head, tail, x, n - 1); }
  }

  lemma FlatCons(head: seq<int>, tail: seq<seq<int>>, x: int)
    ensures multiset(Flat([head] + tail))[x] == multiset(head)[x] + multiset(Flat(tail))[x]
  {
    FlatCount([head] + tail, x);
    FlatCount(tail, x);
    CountToCons(head, tail, x, |tail|);
  }

  lemma {:induction false} PickedCount(held: seq<seq<int>>, from: seq<int>, x: int)
    requires forall k :: 0 <= k < |from| ==> 0 <= from[k] < |held|
    ensures multiset(Flat(Picked(held, from)))[x] == SumFrom(CountOf(held, x), from)
  {
    if from != [] {
      PickedCount(held, from[1..], x);
      FlatCons(held[from[0]], Picked(held, from[1..]), x);
      assert Picked(held, from) == [held[from[0]]] + Picked(held, from[1..]);
    }
  }

  // ---------- the all-gather of the samples ----------

  ghost function HeldIn(p: Partners, r: nat): int -> multiset<int>
    requires p.Valid() && r <= p.Rounds()
  {
    CollectIn(SourcesOf(Swap, p), r)
  }

  ghost function CountHeld(held: multiset<int>, draws: seq<seq<int>>, x: int): nat {
    Weighted(held, CountOf(draws, x), |draws|)
  }

  /** The samples are the draws of the blocks held. */
  ghost predicate DrawsOf(held: multiset<int>, draws: seq<seq<int>>, samps: seq<int>) {
    forall x :: multiset(samps)[x] == CountHeld(held, draws, x)
  }

  /** What every block has gathered when it holds the contributions `held` says. */
  ghost predicate Gathered(held: int -> multiset<int>, draws: seq<seq<int>>, samps: seq<seq<int>>) {
    |samps| == |draws| && forall gid :: 0 <= gid < |samps| ==> BlockHas(held, draws, samps, gid)
  }

  ghost predicate BlockHas(held: int -> multiset<int>, draws: seq<seq<int>>, samps: seq<seq<int>>, gid: int)
    requires 0 <= gid < |samps|
  {
    DrawsOf(held(gid), draws, samps[gid])
  }

  lemma HeldStep(p: Partners, r: nat, gid: int)
    requires p.Valid() && 0 < r <= p.Rounds() && p.Block(gid)
    ensures HeldIn(p, r)(gid) == Gather(HeldIn(p, r - 1), Group(p, r - 1, gid))
  {
    CollectStep(SourcesOf(Swap, p), r, gid);
  }

  /** Adding up counts over a group when each member's count is a weighted sum. */
  lemma CountFromGroup(held: int -> multiset<int>, from: seq<int>, draws: seq<seq<int>>, samps: seq<seq<int>>, x: int)
    requires forall k :: 0 <= k < |from| ==> 0 <= from[k] < |samps|
    requires forall k :: 0 <= k < |from| ==> multiset(samps[from[k]])[x] == CountHeld(held(from[k]), draws, x)
    ensures multiset(Flat(Picked(samps, from)))[x] == CountHeld(Gather(held, from), draws, x)
  {
    PickedCount(samps, from, x);
    SumFromIsGather(CountOf(samps, x), held, from, CountOf(draws, x), |draws|);
  }

  lemma GatherOneRound(held: int -> multiset<int>, draws: seq<seq<int>>, samps: seq<seq<int>>, from: seq<int>)
    requires Gathered(held, draws, samps) && forall k :: 0 <= k < |from| ==> 0 <= from[k] < |samps|
    ensures DrawsOf(Gather(held, from), draws, Flat(Picked(samps, from)))
  {
    forall x ensures multiset(Flat(Picked(samps, from)))[x] == CountHeld(Gather(held, from), draws, x) {
      forall k | 0 <= k < |from| ensures multiset(samps[from[k]])[x] == CountHeld(held(from[k]), draws, x) {
        assert BlockHas(held, draws, samps, from[k]);
      }
      CountFromGroup(held, from, draws, samps, x);
    }
  }

  lemma GroupBlocks(p: Partners, r: nat, gid: int, from: seq<int>)
    requires p.Valid() && r < p.Rounds() && p.Block(gid) && from == Group(p, r, gid)
    ensures forall k :: 0 <= k < |from| ==> p.Block(from[k])
  {
    GroupDistinct(p, r, gid);
    assert forall k :: 0 <= k < |from| ==> from[k] in from;
  }

  /** One sampler round on one block: collects what the incoming partners forwarded. */
  method GatherBlock(p: Partners, r: nat, ghost draws: seq<seq<int>>, samps: seq<seq<int>>, gid: int)
    returns (mine: seq<int>)
    requires p.Valid() && 0 < r <= p.Rounds() && p.Block(gid) && |samps| == Volume(p.divs)
        && Gathered(HeldIn(p, r - 1), draws, samps)
    ensures DrawsOf(HeldIn(p, r)(gid), draws, mine)
  {
    var from := FillIncoming(Swap, p, r, gid, []);
    assert from == Incoming(Swap, p, r, gid);
    GroupBlocks(p, r - 1, gid, from);
    HeldStep(p, r, gid);
    mine := DequeueValues([], samps, from);
    assert mine == Flat(Picked(samps, from));
    GatherOneRound(HeldIn(p, r - 1), draws, samps, from);
  }

  method GatherRound(p: Partners, r: nat, ghost draws: seq<seq<int>>, samps: seq<seq<int>>)
    returns (samps': seq<seq<int>>)
    requires p.Valid() && r < p.Rounds() && |samps| == Volume(p.divs) && Gathered(HeldIn(p, r), draws, samps)
    ensures |samps'| == |samps| && Gathered(HeldIn(p, r + 1), draws, samps')
  {
    samps' := [];
    ghost var held := HeldIn(p, r + 1);
    for gid := 0 to |samps|
      invariant |samps'| == gid
      invariant forall g :: 0 <= g < gid ==> DrawsOf(held(g), draws, samps'[g])
    {
      var mine := GatherBlock(p, r + 1, draws, samps, gid);
      samps' := samps' + [mine];
    }
    assert forall g :: 0 <= g < |samps'| ==> BlockHas(held, draws, samps', g);
  }

  lemma OwnDraws(p: Partners, draws: seq<seq<int>>)
    requires p.Valid() && |draws| == Volume(p.divs)
    ensures Gathered(HeldIn(p, 0), draws, draws)
  {
    forall gid | 0 <= gid < |draws| ensures BlockHas(HeldIn(p, 0), draws, draws, gid) {
      forall x ensures multiset(draws[gid])[x] == CountHeld(HeldIn(p, 0)(gid), draws, x) {
        WeightedOne(gid, CountOf(draws, x), |draws|);
      }
    }
  }

  /** Counting every block's draws once counts the draws of all blocks. */
  lemma {:induction false} WeightedIsCountTo(held: multiset<int>, draws: seq<seq<int>>, x: int, n: nat)
    requires n <= |draws| && forall c :: 0 <= c < n ==> held[c] == 1
    ensures Weighted(held, CountOf(draws, x), n) == CountTo(draws, x, n)
  {
    if n > 0 {
      WeightedIsCountTo(held, draws, x, n - 1);
      var v := CountOf(draws, x)(n - 1);
      assert Times(1, v) == Times(0, v) + v;
    }
  }

  /** After the last round every block holds exactly the draws of all blocks. */
  lemma AllSamples(p: Partners, draws: seq<seq<int>>, samps: seq<seq<int>>, a: nat)
    requires p.Valid() && |draws| == Volume(p.divs) && Gathered(HeldIn(p, p.Rounds()), draws, samps) && a < |samps|
    ensures multiset(samps[a]) == multiset(Flat(draws))
  {
    var held := HeldIn(p, p.Rounds());
    forall c | 0 <= c < |draws| ensures held(a)[c] == 1 {
      SwapTotal(p, a, c);
    }
    assert BlockHas(held, draws, samps, a);
    forall x ensures multiset(samps[a])[x] == multiset(Flat(draws))[x] {
      WeightedIsCountTo(held(a), draws, x, |draws|);
      FlatCount(draws, x);
    }
  }

  // ---------- dividers ----------

  function Step(samples: nat, nblocks: nat): nat
    requires nblocks > 0
  {
    if samples / nblocks == 0 then 1 else samples / nblocks
  }

  function Clamp(i: nat, last: nat): nat {
    if i < last then i else last
  }

  /** Which sample becomes divider i. */
  function QuantileAt(i: nat, size: nat, nblocks: nat): (at: nat)
    requires size > 0 && nblocks > 0
    ensures at < size
  {
    StepOrder(Step(size, nblocks), i, i);
    Clamp((i + 1) * Step(size, nblocks), size - 1)
  }

  /** The subsamples of a sorted sample that separate its quantiles. */
  function Quantiles(sorted: seq<int>, nblocks: nat, zero: int): seq<int>
    requires nblocks > 0
  {
    if sorted == [] then seq(nblocks - 1, _ => zero)
    else seq(nblocks - 1, i requires 0 <= i < nblocks - 1 => sorted[QuantileAt(i, |sorted|, nblocks)])
  }

  lemma StepOrder(step: nat, i: nat, j: nat)
    requires i <= j
    ensures 0 <= (i + 1) * step <= (j + 1) * step
  {
    MulMono(i + 1, j + 1, step);
  }

  lemma QuantileOrder(i: nat, j: nat, size: nat, nblocks: nat)
    requires size > 0 && nblocks > 0 && i <= j
    ensures QuantileAt(i, size, nblocks) <= QuantileAt(j, size, nblocks)
  {
    StepOrder(Step(size, nblocks), i, j);
  }

  lemma SortedAt(s: seq<int>, i: nat, j: nat, less: Less)
    requires StrictWeak(less) && Sorted(s, less) && i <= j < |s|
    ensures !less(s[j], s[i])
  {
    var x := s[i];
    assert !less(x, x);
  }

  lemma QuantilesSorted(s: seq<int>, nblocks: nat, zero: int, less: Less)
    requires nblocks > 0 && StrictWeak(less) && Sorted(s, less)
    ensures Sorted(Quantiles(s, nblocks, zero), less)
  {
    if s != [] {
      var d := Quantiles(s, nblocks, zero);
      forall i, j | 0 <= i < j < |d| ensures !less(d[j], d[i]) {
        QuantileOrder(i, j, |s|, nblocks);
        SortedAt(s, QuantileAt(i, |s|, nblocks), QuantileAt(j, |s|, nblocks), less);
      }
    }
  }

  lemma QuantilesAlike(s: seq<int>, t: seq<int>, nblocks: nat, zero: int, less: Less)
    requires nblocks > 0 && StrictWeak(less) && Alike(s, t, less)
    ensures Alike(Quantiles(s, nblocks, zero), Quantiles(t, nblocks, zero), less)
  {
    var d, e := Quantiles(s, nblocks, zero), Quantiles(t, nblocks, zero);
    forall i | 0 <= i < |d| ensures Equivalent(d[i], e[i], less) {
      if s != [] {
        var at := QuantileAt(i, |s|, nblocks);
        assert Equivalent(s[at], t[at], less);
      }
    }
  }

  /** The dividers come from some sorted arrangement of the samples. */
  ghost predicate DividersOf(samps: seq<int>, nblocks: nat, zero: int, less: Less, d: seq<int>)
    requires nblocks > 0
  {
    exists s :: Sorted(s, less) && multiset(s) == multiset(samps) && d == Quantiles(s, nblocks, zero)
  }

  // ---------- which samples the dividers are ----------

  function Reverse(less: Less): Less {
    (x, y) => less(y, x)
  }

  /** v stands at position r, counted from zero, of the samples in order: so many are less and more are not
      greater. */
  predicate HasRank(samps: seq<int>, v: int, less: Less, r: int) {
    v in samps && CountLess(samps, v, less) <= r < |samps| - CountLess(samps, v, Reverse(less))
  }

  /** The rank of divider i: so many whole parts of the samples, or of one sample each if there are fewer samples
      than blocks. */
  function RankOf(i: nat, size: nat, nblocks: nat): int
    requires nblocks > 0
  {
    if size >= nblocks then (i + 1) * (size / nblocks) else if i + 1 < size then i + 1 else size - 1
  }

  /** The dividers cut the samples into parts of equal size, or are all the given value if there are none. */
  ghost predicate CutsEvenly(samps: seq<int>, nblocks: nat, zero: int, less: Less, d: seq<int>)
    requires nblocks > 0
  {
    |d| == nblocks - 1 && forall i :: 0 <= i < |d| ==>
      if samps == [] then d[i] == zero else HasRank(samps, d[i], less, RankOf(i, |samps|, nblocks))
  }

  lemma PositionHasRank(sorted: seq<int>, samps: seq<int>, at: nat, less: Less)
    requires StrictWeak(less) && Sorted(sorted, less) && multiset(sorted) == multiset(samps) && at < |sorted|
    ensures HasRank(samps, sorted[at], less, at) && |samps| == |sorted|
  {
    var v, low, high := sorted[at], sorted[..at + 1], sorted[at + 1..];
    assert |samps| == |multiset(samps)| == |multiset(sorted)| == |sorted|;
    CountHigh(sorted, at, less);
    CountPermuted(sorted, samps, v, less);
    assert sorted == low + high;
    CountSplit(low, high, v, Reverse(less));
    forall j | 0 <= j < |low| ensures !Reverse(less)(low[j], v) {
      SortedAt(sorted, j, at, less);
    }
    CountNone(low, v, Reverse(less));
    CountAtMost(high, v, Reverse(less));
    CountPermuted(sorted, samps, v, Reverse(less));
    assert v in multiset(sorted);
  }

  /** With as many samples as blocks no divider is clamped to the last sample. */
  lemma QuantileIsRank(i: nat, size: nat, nblocks: nat)
    requires size > 0 && i + 1 < nblocks
    ensures QuantileAt(i, size, nblocks) == RankOf(i, size, nblocks)
  {
    DivNonneg(size, nblocks);
    var part := size / nblocks;
    if size >= nblocks {
      if part < 1 { MulMono(part, 0, nblocks); }
      MulMono(i + 2, nblocks, part);
      MulDistr(i + 1, 1, part);
      assert nblocks * part == part * nblocks;
    } else {
      DivUnique(size, nblocks, 0, size);
    }
  }

  lemma DividersCutEvenly(samps: seq<int>, nblocks: nat, zero: int, less: Less, d: seq<int>)
    requires nblocks > 0 && StrictWeak(less) && DividersOf(samps, nblocks, zero, less, d)
    ensures CutsEvenly(samps, nblocks, zero, less, d)
  {
    var s :| Sorted(s, less) && multiset(s) == multiset(samps) && d == Quantiles(s, nblocks, zero);
    assert |samps| == |multiset(samps)| == |multiset(s)| == |s|;
    if samps != [] {
      forall i | 0 <= i < |d| ensures HasRank(samps, d[i], less, RankOf(i, |samps|, nblocks)) {
        QuantileIsRank(i, |s|, nblocks);
        PositionHasRank(s, samps, QuantileAt(i, |s|, nblocks), less);
      }
    }
  }

  /** The last round of the sampler. */
  method PickDividers(samps: seq<int>, nblocks: nat, zero: int, less: Less) returns (d: seq<int>)
    requires nblocks > 0 && StrictWeak(less)
    ensures DividersOf(samps, nblocks, zero, less, d) && CutsEvenly(samps, nblocks, zero, less, d)
  {
    var sorted := Sort(samps, less);
    d := seq(nblocks - 1, _ => zero);
    assert |sorted| == |multiset(sorted)| == |multiset(samps)| == |samps|;
    if sorted == [] {
      DividersCutEvenly(samps, nblocks, zero, less, d);
      return;
    }
    var step := |sorted| / nblocks;
    DivNonneg(|sorted|, nblocks);
    if step == 0 {
      step := 1;
    }
    for i := 0 to nblocks - 1
      invariant |d| == nblocks - 1
      invariant forall j :: 0 <= j < i ==> d[j] == sorted[QuantileAt(j, |sorted|, nblocks)]
    {
      var at := (i + 1) * step;
      StepOrder(step, i, i);
      assert QuantileAt(i, |sorted|, nblocks) == Clamp(at, |sorted| - 1);
      d := d[i := sorted[if at < |sorted| - 1 then at else |sorted| - 1]];
    }
    assert d == Quantiles(sorted, nblocks, zero);
    DividersCutEvenly(samps, nblocks, zero, less, d);
  }

  /** Blocks with the same samples get sorted and equivalent dividers. */
  lemma DividersAlike(s: seq<int>, t: seq<int>, nblocks: nat, zero: int, less: Less, d: seq<int>, e: seq<int>)
    requires nblocks > 0 && StrictWeak(less) && multiset(s) == multiset(t)
    requires DividersOf(s, nblocks, zero, less, d) && DividersOf(t, nblocks, zero, less, e)
    ensures Alike(d, e, less) && Sorted(d, less) && |d| == nblocks - 1
  {
    var s' :| Sorted(s', less) && multiset(s') == multiset(s) && d == Quantiles(s', nblocks, zero);
    var t' :| Sorted(t', less) && multiset(t') == multiset(t) && e == Quantiles(t', nblocks, zero);
    SortedAlike(s', t', less);
    QuantilesAlike(s', t', nblocks, zero, less);
    QuantilesSorted(s', nblocks, zero, less);
  }

  // ---------- routing ----------

  /** The values that go to block t, in order. */
  function Routed(values: seq<int>, dividers: seq<int>, t: nat, less: Less): seq<int> {
    if values == [] then [] else
    var n := |values| - 1;
    Routed(values[..n], dividers, t, less) + if FirstNotLess(dividers, values[n], less) == t then [values[n]] else []
  }

  lemma {:induction false} RoutedCount(values: seq<int>, dividers: seq<int>, t: nat, less: Less, x: int)
    ensures multiset(Routed(values, dividers, t, less))[x] == if FirstNotLess(dividers, x, less) == t
        then multiset(values)[x] else 0
  {
    if values != [] {
      var n := |values| - 1;
      RoutedCount(values[..n], dividers, t, less, x);
      assert values == values[..n] + [values[n]];
    }
  }

  /** Round 0 of the exchanger: every value is enqueued for the block lower_bound picks. */
  method EnqueueValues(values: seq<int>, dividers: seq<int>, nblocks: nat, less: Less) returns (queues: seq<seq<int>>)
    requires StrictWeak(less) && Sorted(dividers, less) && |dividers| + 1 == nblocks
    ensures |queues| == nblocks && forall t :: 0 <= t < nblocks ==> queues[t] == Routed(values, dividers, t, less)
  {
    queues := seq(nblocks, _ => []);
    for i := 0 to |values|
      invariant |queues| == nblocks && forall t :: 0 <= t < nblocks ==>
          queues[t] == Routed(values[..i], dividers, t, less)
    {
      assert values[..i + 1][..i] == values[..i];
      var to := LowerBound(dividers, values[i], less);
      queues := queues[to := queues[to] + [values[i]]];
    }
    assert values[..|values|] == values;
  }

  /** Every block routes like the reference dividers. */
  ghost predicate RoutesAlike(values: seq<seq<int>>, dividers: seq<int>, less: Less, q: Queues) {
    && Square(q) && |q| == |values| && |dividers| + 1 == |q|
    && forall f, t, x :: 0 <= f < |q| && 0 <= t < |q| ==>
         multiset(q[f][t])[x] == if FirstNotLess(dividers, x, less) == t then multiset(values[f])[x] else 0
  }

  /** What block t receives. */
  ghost function Column(q: Queues, t: nat): seq<seq<int>>
    requires Square(q) && t < |q|
  {
    seq(|q|, f requires 0 <= f < |q| => q[f][t])
  }

  lemma {:induction false} ColumnCount(values: seq<seq<int>>, dividers: seq<int>, less: Less, q: Queues, t: nat,
          x: int, n: nat)
    requires RoutesAlike(values, dividers, less, q) && t < |q| && n <= |q|
    ensures CountTo(Column(q, t), x, n) == if FirstNotLess(dividers, x, less) == t then CountTo(values, x, n) else 0
  {
    if n > 0 { ColumnCount(values, dividers, less, q, t, x, n - 1); }
  }

  /** What a block ends with: a sorted arrangement of what it received. */
  ghost predicate SortedColumn(q: Queues, t: nat, less: Less, block: seq<int>)
    requires Square(q) && t < |q|
  {
    Sorted(block, less) && multiset(block) == multiset(Flat(Column(q, t)))
  }

  ghost predicate Result(q: Queues, less: Less, blocks: seq<seq<int>>) {
    Square(q) && |blocks| == |q| && forall t :: 0 <= t < |q| ==> SortedColumn(q, t, less, blocks[t])
  }

  lemma BlockCount(values: seq<seq<int>>, dividers: seq<int>, less: Less, q: Queues, blocks: seq<seq<int>>, t: nat,
          x: int)
    requires RoutesAlike(values, dividers, less, q) && Result(q, less, blocks) && t < |q|
    ensures multiset(blocks[t])[x] == if FirstNotLess(dividers, x, less) == t then CountTo(values, x, |values|) else 0
  {
    assert SortedColumn(q, t, less, blocks[t]);
    FlatCount(Column(q, t), x);
    ColumnCount(values, dividers, less, q, t, x, |q|);
  }

  lemma {:induction false} BlocksCount(values: seq<seq<int>>, dividers: seq<int>, less: Less, q: Queues,
          blocks: seq<seq<int>>, x: int, n: nat)
    requires RoutesAlike(values, dividers, less, q) && Result(q, less, blocks) && n <= |q|
    ensures CountTo(blocks, x, n) == if FirstNotLess(dividers, x, less) < n then CountTo(values, x, |values|) else 0
  {
    if n > 0 {
      BlocksCount(values, dividers, less, q, blocks, x, n - 1);
      BlockCount(values, dividers, less, q, blocks, n - 1, x);
    }
  }

  /** The blocks together are a permutation of the values. */
  lemma ResultIsPermutation(values: seq<seq<int>>, dividers: seq<int>, less: Less, q: Queues, blocks: seq<seq<int>>)
    requires RoutesAlike(values, dividers, less, q) && Result(q, less, blocks)
    ensures multiset(Flat(blocks)) == multiset(Flat(values))
  {
    forall x ensures multiset(Flat(blocks))[x] == multiset(Flat(values))[x] {
      FlatCount(blocks, x);
      FlatCount(values, x);
      BlocksCount(values, dividers, less, q, blocks, x, |q|);
    }
  }

  /** A value in an earlier block is never greater than one in a later block. */
  lemma BlocksOrdered(values: seq<seq<int>>, dividers: seq<int>, less: Less, q: Queues, blocks: seq<seq<int>>,
          t: nat, u: nat, v: int, w: int)
    requires StrictWeak(less) && RoutesAlike(values, dividers, less, q) && Result(q, less, blocks)
    requires t < u < |q| && v in blocks[t] && w in blocks[u]
    ensures !less(w, v)
  {
    BlockCount(values, dividers, less, q, blocks, t, v);
    BlockCount(values, dividers, less, q, blocks, u, w);
    assert multiset(blocks[t])[v] > 0 && multiset(blocks[u])[w] > 0;
    FirstNotLessSpec(dividers, v, less);
    FirstNotLessSpec(dividers, w, less);
    var d := dividers[t];
    assert !less(d, v) && less(d, w);
    assert less(d, w) && less(w, v) ==> less(d, v);
  }

  lemma {:induction false} FlatMember(blocks: seq<seq<int>>, x: int) returns (t: nat)
    requires x in Flat(blocks)
    ensures t < |blocks| && x in blocks[t]
  {
    var n := |blocks| - 1;
    if x in blocks[n] { t := n; } else { t := FlatMember(blocks[..n], x); }
  }

  ghost predicate InOrder(blocks: seq<seq<int>>, less: Less, t: int, u: int)
    requires 0 <= t < u < |blocks|
  {
    forall v, w :: v in blocks[t] && w in blocks[u] ==> !less(w, v)
  }

  ghost predicate Ordered(blocks: seq<seq<int>>, less: Less) {
    forall t, u :: 0 <= t < u < |blocks| ==> InOrder(blocks, less, t, u)
  }

  lemma OrderedPair(blocks: seq<seq<int>>, less: Less, t: nat, u: nat, v: int, w: int)
    requires Ordered(blocks, less) && t < u < |blocks| && v in blocks[t] && w in blocks[u]
    ensures !less(w, v)
  {
    assert InOrder(blocks, less, t, u);
  }

  lemma {:induction false} FlatSorted(blocks: seq<seq<int>>, less: Less)
    requires (forall t :: 0 <= t < |blocks| ==> Sorted(blocks[t], less)) && Ordered(blocks, less)
    ensures Sorted(Flat(blocks), less)
  {
    if blocks != [] {
      var n := |blocks| - 1;
      var low, high := Flat(blocks[..n]), blocks[n];
      forall t, u | 0 <= t < u < n ensures InOrder(blocks[..n], less, t, u) {
        assert InOrder(blocks, less, t, u);
      }
      FlatSorted(blocks[..n], less);
      forall i, j | 0 <= i < |low| && 0 <= j < |high| ensures !less(high[j], low[i]) {
        var t := FlatMember(blocks[..n], low[i]);
        OrderedPair(blocks, less, t, n, low[i], high[j]);
      }
      SortedConcat(low, high, less);
    }
  }

  lemma SortedConcat(a: seq<int>, b: seq<int>, less: Less)
    requires Sorted(a, less) && Sorted(b, less)
    requires forall i, j :: 0 <= i < |a| && 0 <= j < |b| ==> !less(b[j], a[i])
    ensures Sorted(a + b, less)
  {
    var c := a + b;
    forall i, j | 0 <= i < j < |c| ensures !less(c[j], c[i]) {
      if i >= |a| {
        assert c[i] == b[i - |a|] && c[j] == b[j - |a|];
      } else if j >= |a| {
        assert c[i] == a[i] && c[j] == b[j - |a|];
      } else {
        assert c[i] == a[i] && c[j] == a[j];
      }
    }
  }

  // ---------- the whole sort ----------

  /** Samples from one block. */
  ghost predicate DrawnFrom(values: seq<int>, numSamples: nat, samps: seq<int>) {
    |samps| == (if values == [] then 0 else numSamples) && forall i :: 0 <= i < |samps| ==> samps[i] in values
  }

  /** The first sampler round: random picks from the block's values, if it has any. */
  method DrawSamples(values: seq<int>, numSamples: nat) returns (samps: seq<int>)
    ensures DrawnFrom(values, numSamples, samps)
  {
    samps := [];
    if values != [] {
      for i := 0 to numSamples
        invariant |samps| == i && forall j :: 0 <= j < i ==> samps[j] in values
      {
        var at :| 0 <= at < |values|;
        samps := samps + [values[at]];
      }
    }
  }

  method DrawAll(values: seq<seq<int>>, numSamples: nat) returns (draws: seq<seq<int>>)
    ensures |draws| == |values| && forall f :: 0 <= f < |values| ==> DrawnFrom(values[f], numSamples, draws[f])
  {
    draws := [];
    for f := 0 to |values|
      invariant |draws| == f && forall g :: 0 <= g < f ==> DrawnFrom(values[g], numSamples, draws[g])
    {
      var mine := DrawSamples(values[f], numSamples);
      draws := draws + [mine];
    }
  }

  method SwapPartners(nblocks: nat, k: nat) returns (p: Partners)
    requires nblocks > 0 && k >= 2
    ensures p.Valid() && Volume(p.divs) == nblocks
  {
    p := FromDivisions([nblocks], k, true);
    OneDimension(p, nblocks);
  }

  /** The rounds of the sampling reduction. */
  method GatherRounds(p: Partners, draws: seq<seq<int>>) returns (samps: seq<seq<int>>)
    requires p.Valid() && |draws| == Volume(p.divs)
    ensures |samps| == |draws| && Gathered(HeldIn(p, p.Rounds()), draws, samps)
  {
    samps := draws;
    OwnDraws(p, draws);
    for r := 0 to p.Rounds()
      invariant |samps| == |draws| && Gathered(HeldIn(p, r), draws, samps)
    {
      samps := GatherRound(p, r, draws, samps);
    }
  }

  method AllGather(nblocks: nat, draws: seq<seq<int>>, k: nat) returns (samps: seq<seq<int>>)
    requires |draws| == nblocks > 0 && k >= 2
    ensures |samps| == nblocks && forall f :: 0 <= f < nblocks ==> multiset(samps[f]) == multiset(Flat(draws))
  {
    var p := SwapPartners(nblocks, k);
    samps := GatherRounds(p, draws);
    forall f | 0 <= f < nblocks ensures multiset(samps[f]) == multiset(Flat(draws)) {
      AllSamples(p, draws, samps, f);
    }
  }

  lemma OneDimension(p: Partners, nblocks: nat)
    requires p.divs == [nblocks]
    ensures Volume(p.divs) == nblocks
  {
    assert Volume(p.divs[1..]) == 1;
  }

  /** Every block picks its dividers from a sorted arrangement of everybody's draws, so all blocks end with
      sorted dividers that are equivalent to each other. */
  method AllDividers(values: seq<seq<int>>, numSamples: nat, k: nat, zero: int, less: Less)
    returns (dividers: seq<seq<int>>, ghost draws: seq<seq<int>>)
    requires |values| > 0 && k >= 2 && StrictWeak(less)
    ensures |draws| == |values| && forall f :: 0 <= f < |values| ==> DrawnFrom(values[f], numSamples, draws[f])
    ensures |dividers| == |values|
    ensures forall f :: 0 <= f < |values| ==> DividersOf(Flat(draws), |values|, zero, less, dividers[f])
    ensures forall f :: 0 <= f < |values| ==> CutsEvenly(Flat(draws), |values|, zero, less, dividers[f])
    ensures forall f :: 0 <= f < |values| ==>
              Sorted(dividers[f], less) && |dividers[f]| + 1 == |values| && Alike(dividers[f], dividers[0], less)
  {
    var nblocks := |values|;
    var drawn := DrawAll(values, numSamples);
    draws := drawn;
    var samps := AllGather(nblocks, drawn, k);
    dividers := [];
    for f := 0 to nblocks
      invariant |dividers| == f && forall g :: 0 <= g < f ==> DividersOf(Flat(draws), nblocks, zero, less, dividers[g])
    {
      var d := PickDividers(samps[f], nblocks, zero, less);
      SameDividers(samps[f], Flat(draws), nblocks, zero, less, d);
      dividers := dividers + [d];
    }
    forall f | 0 <= f < nblocks
      ensures CutsEvenly(Flat(draws), nblocks, zero, less, dividers[f])
      ensures Sorted(dividers[f], less) && |dividers[f]| + 1 == nblocks && Alike(dividers[f], dividers[0], less)
    {
      DividersCutEvenly(Flat(draws), nblocks, zero, less, dividers[f]);
      DividersAlike(Flat(draws), Flat(draws), nblocks, zero, less, dividers[f], dividers[0]);
    }
  }

  lemma SameDividers(s: seq<int>, t: seq<int>, nblocks: nat, zero: int, less: Less, d: seq<int>)
    requires nblocks > 0 && multiset(s) == multiset(t) && DividersOf(s, nblocks, zero, less, d)
    ensures DividersOf(t, nblocks, zero, less, d)
  {
    var s' :| Sorted(s', less) && multiset(s') == multiset(s) && d == Quantiles(s', nblocks, zero);
    assert multiset(s') == multiset(t);
  }

  method EnqueueAll(values: seq<seq<int>>, dividers: seq<seq<int>>, less: Less) returns (q: Queues)
    requires |dividers| == |values| > 0 && StrictWeak(less)
    requires forall f :: 0 <= f < |values| ==>
               Sorted(dividers[f], less) && |dividers[f]| + 1 == |values| && Alike(dividers[f], dividers[0], less)
    ensures RoutesAlike(values, dividers[0], less, q)
  {
    q := [];
    for f := 0 to |values|
      invariant |q| == f
      invariant forall g :: 0 <= g < f ==> |q[g]| == |values|
      invariant forall g, t :: 0 <= g < f && 0 <= t < |values| ==> q[g][t] == Routed(values[g], dividers[g], t, less)
    {
      var mine := EnqueueValues(values[f], dividers[f], |values|, less);
      q := q + [mine];
    }
    forall f, t, x | 0 <= f < |q| && 0 <= t < |q|
      ensures multiset(q[f][t])[x] == if FirstNotLess(dividers[0], x, less) == t then multiset(values[f])[x] else 0
    {
      RoutedCount(values[f], dividers[f], t, less, x);
      AlikeRoutes(dividers[f], dividers[0], x, less);
    }
  }

  /** The last round of the exchanger on all blocks. */
  method DequeueAll(q: Queues, k: nat, less: Less) returns (blocks: seq<seq<int>>)
    requires Square(q) && k >= 2 && StrictWeak(less)
    ensures Result(q, less, blocks)
  {
    var incoming := AllToAllExchange(q, k);
    blocks := [];
    for t := 0 to |incoming|
      invariant |blocks| == t && forall u :: 0 <= u < t ==> SortedColumn(q, u, less, blocks[u])
    {
      var queues := seq(|q|, f requires 0 <= f < |q| => incoming[t][f]);
      assert queues == Column(q, t);
      var from := seq(|q|, f => f);
      assert Picked(queues, from) == queues;
      var mine := DequeueValues([], queues, from);
      assert mine == Flat(Column(q, t));
      var sorted := Sort(mine, less);
      blocks := blocks + [sorted];
    }
  }

  /** The dividers of any block are the boundaries between the blocks. */
  ghost predicate Bounded(blocks: seq<seq<int>>, dividers: seq<int>, less: Less, t: int)
    requires 0 <= t < |blocks|
  {
    forall v :: v in blocks[t] ==> FirstNotLess(dividers, v, less) == t
  }

  lemma BoundariesHold(values: seq<seq<int>>, dividers: seq<int>, less: Less, q: Queues, blocks: seq<seq<int>>,
          own: seq<int>, t: nat)
    requires StrictWeak(less) && RoutesAlike(values, dividers, less, q) && Result(q, less, blocks) && t < |blocks|
    requires Alike(own, dividers, less)
    ensures Bounded(blocks, own, less, t)
  {
    forall v | v in blocks[t] ensures FirstNotLess(own, v, less) == t {
      BlockCount(values, dividers, less, q, blocks, t, v);
      assert multiset(blocks[t])[v] > 0;
      AlikeRoutes(own, dividers, v, less);
    }
  }

  /** sort: whatever is sampled, with whatever fanout, the blocks in gid order end up as a sorted
      permutation of all values, and every block's dividers, which cut what all blocks have drawn into parts of
      equal size, are the boundaries between them. */
  method SortAcrossBlocks(values: seq<seq<int>>, numSamples: nat, k: nat, zero: int, less: Less)
    returns (blocks: seq<seq<int>>, dividers: seq<seq<int>>, ghost draws: seq<seq<int>>)
    requires |values| > 0 && k >= 2 && StrictWeak(less)
    ensures |blocks| == |dividers| == |values|
    ensures Sorted(Flat(blocks), less) && multiset(Flat(blocks)) == multiset(Flat(values))
    ensures forall f, t :: 0 <= f < |values| && 0 <= t < |values| ==> Bounded(blocks, dividers[f], less, t)
    ensures |draws| == |values| && forall f :: 0 <= f < |values| ==> DrawnFrom(values[f], numSamples, draws[f])
    ensures forall f :: 0 <= f < |values| ==> CutsEvenly(Flat(draws), |values|, zero, less, dividers[f])
  {
    dividers, draws := AllDividers(values, numSamples, k, zero, less);
    var q := EnqueueAll(values, dividers, less);
    blocks := DequeueAll(q, k, less);
    ResultIsPermutation(values, dividers[0], less, q, blocks);
    forall t, u | 0 <= t < u < |blocks| ensures InOrder(blocks, less, t, u) {
      forall v, w | v in blocks[t] && w in blocks[u] ensures !less(w, v) {
        BlocksOrdered(values, dividers[0], less, q, blocks, t, u, v, w);
      }
    }
    assert forall t :: 0 <= t < |blocks| ==> SortedColumn(q, t, less, blocks[t]);
    FlatSorted(blocks, less);
    forall f, t | 0 <= f < |values| && 0 <= t < |values| ensures Bounded(blocks, dividers[f], less, t) {
      BoundariesHold(values, dividers[0], less, q, blocks, dividers[f], t);
    }
  }
}
