/** The rounds of the kd-tree reduction: per outer iteration a shortened all-reduce of histograms, one
    swap round and one link round. Skipping the middle of the all-reduce leaves every block with the
    histograms of exactly the blocks that share its leading gid bits. */
module KdSchedule {
  import opened Arith
  import opened Coordinates
  import opened Factoring
  import opened Groups
  import opened Schedules
  import opened Counting
  import opened KdLinks

  /** (in a swap or link round?, round within that pattern; -1 marks the link round). */
  type Round = (bool, int)

  // ---------- the list of rounds ----------

  /** The all-reduce round that comes m-th in iteration i: the first half stops short by i rounds and the
      second half starts late by as many. */
  function SubRound(R: nat, i: nat, m: nat): nat {
    if m < R - i then m else m + 2 * i
  }

  function HistogramRounds(R: nat, i: nat, m: nat): seq<Round>
    requires i < R
  {
    if m == 0 then [] else HistogramRounds(R, i, m - 1) + [(false, SubRound(R, i, m - 1))]
  }

  function SwapRound(i: int): Round {
    (true, i)
  }

  function LinkRound(): Round {
    SwapRound(-1)
  }

  function Iteration(R: nat, i: nat): seq<Round>
    requires i < R
  {
    HistogramRounds(R, i, 2 * (R - i)) + [SwapRound(i), LinkRound()]
  }

  function Iterations(R: nat, i: nat): seq<Round>
    requires i <= R
  {
    if i == 0 then [] else Iterations(R, i - 1) + Iteration(R, i - 1)
  }

  function Dims(R: nat, dim: nat, i: nat): seq<nat>
    requires i <= R && dim > 0
  {
    if i == 0 then [] else Dims(R, dim, i - 1) + seq(|Iteration(R, i - 1)|, _ => (i - 1) % dim)
  }

  /** update_links runs one iteration late, on the dimension before the current one: the one that was split. */
  lemma PreviousDim(dim: nat, i: nat)
    requires dim > 0 && i > 0
    ensures (if i % dim - 1 < 0 then i % dim - 1 + dim else i % dim - 1) == (i - 1) % dim
  {
    DivNonneg(i, dim);
    var q, r := i / dim, i % dim;
    if r > 0 {
      DivUnique(i - 1, dim, q, r - 1);
    } else {
      MulDistr(q, 1, dim);
      DivUnique(i - 1, dim, q - 1, dim - 1);
    }
  }

  method DimBefore(dim: nat, dims: nat, ghost i: nat) returns (prevDim: nat)
    requires dims > 0 && i > 0 && dim == i % dims
    ensures prevDim == (i - 1) % dims
  {
    PreviousDim(dims, i);
    var before := dim as int - 1;
    if before < 0 {
      before := before + dims;
    }
    prevDim := before;
  }

  /** The constructor's loops, with the inner counter jumping over the skipped rounds. */
  method BuildRounds(dim: nat, swapRounds: nat, histogramRounds: nat) returns (rounds: seq<Round>, dims: seq<nat>)
    requires dim > 0 && histogramRounds == 2 * swapRounds
    ensures rounds == Iterations(swapRounds, swapRounds) && dims == Dims(swapRounds, dim, swapRounds)
    ensures |dims| == |rounds|
  {
    rounds, dims := [], [];
    for i := 0 to swapRounds
      invariant rounds == Iterations(swapRounds, i) && dims == Dims(swapRounds, dim, i) && |dims| == |rounds|
    {
      IterationEnds(swapRounds, i);
      var more := HistogramPart(swapRounds, histogramRounds, i);
      rounds := rounds + (more + [SwapRound(i)] + [LinkRound()]);
      dims := dims + seq(|more| + 2, _ => i % dim);
      assert more + [SwapRound(i)] + [LinkRound()] == Iteration(swapRounds, i);
    }
  }

  /** The inner loop: the counter jumps over the middle of the all-reduce. */
  method HistogramPart(swapRounds: nat, histogramRounds: nat, i: nat) returns (rounds: seq<Round>)
    requires histogramRounds == 2 * swapRounds && i < swapRounds
    ensures rounds == HistogramRounds(swapRounds, i, 2 * (swapRounds - i)) && |rounds| == 2 * (swapRounds - i)
  {
    rounds := [];
    var j := 0;
    ghost var m := 0;
    while j < histogramRounds
      invariant 0 <= m <= 2 * (swapRounds - i) && j == SubRound(swapRounds, i, m)
      invariant rounds == HistogramRounds(swapRounds, i, m) && |rounds| == m
      decreases histogramRounds - j
    {
      rounds := rounds + [(false, j)];
      if j == histogramRounds / 2 - 1 - i {
        j := j + 2 * i;
      }
      j := j + 1;
      m := m + 1;
    }
  }

  // ---------- partners ----------

  /** The histogram partners are contiguous, the swap partners are not; both halve 2^R blocks. */
  ghost predicate KdPartners(h: Partners, p: Partners) {
    && Halving(p) && h.Valid() && h.contiguous && h.kvs == p.kvs && h.divs == p.divs
  }

  ghost predicate IsRound(R: nat, x: Round) {
    if x.0 then -1 <= x.1 < R else 0 <= x.1 < 2 * R
  }

  /** `active`. */
  ghost predicate KdActive(h: Partners, p: Partners, x: Round, gid: int)
    requires KdPartners(h, p) && IsRound(p.Rounds(), x) && p.Block(gid)
  {
    x.0 || Active(AllReduce, h, x.1, gid)
  }

  /** `incoming` of a round, given the round before it; `None` as the round is the end of the reduction.
      `neighbors` is what `link_neighbors` reads off the block's link. */
  datatype Next = At(round: Round) | End

  ghost function KdIncoming(h: Partners, p: Partners, prev: Round, next: Next, gid: int,
          neighbors: int -> seq<int>): seq<int>
    requires KdPartners(h, p) && IsRound(p.Rounds(), prev) && p.Block(gid)
    requires next.At? ==> IsRound(p.Rounds(), next.round) && Follows(p.Rounds(), prev, next)
  {
    match next
    case End => neighbors(gid)
    case At(x) =>
      if x.0 && x.1 < 0 then Incoming(Swap, p, prev.1 + 1, gid)
      else if x.0 then Incoming(AllReduce, h, TotalRounds(AllReduce, h), gid)
      else if x.1 == 0 then neighbors(gid)
      else if prev.1 != x.1 - 1 then Incoming(AllReduce, h, prev.1 + 1, gid)
      else Incoming(AllReduce, h, x.1, gid)
  }

  /** `outgoing`. */
  ghost function KdOutgoing(h: Partners, p: Partners, x: Round, gid: int, neighbors: int -> seq<int>): seq<int>
    requires KdPartners(h, p) && IsRound(p.Rounds(), x) && p.Block(gid)
  {
    if x.0 && x.1 < 0 then neighbors(gid)
    else if x.0 then Outgoing(Swap, p, x.1, gid)
    else Outgoing(AllReduce, h, x.1, gid)
  }

  /** Which rounds can come after which. */
  ghost predicate Follows(R: nat, x: Round, next: Next) {
    if x.0 then
      if x.1 >= 0 then next == At((true, -1)) else next == End || next == At((false, 0))
    else
      || (next == At((false, x.1 + 1)) && x.1 + 1 < 2 * R)
      || (next == At((false, 2 * R - 1 - x.1)) && x.1 < R)
      || (x.1 == 2 * R - 1 && next.At? && next.round.0 && 0 <= next.round.1 < R)
  }

  method IsKdActive(h: Partners, p: Partners, x: Round, gid: int) returns (active: bool)
    requires KdPartners(h, p) && IsRound(p.Rounds(), x) && p.Block(gid)
    ensures active == KdActive(h, p, x, gid)
  {
    if x.0 {
      return true;
    }
    active := IsActive(AllReduce, h, x.1, gid);
  }

  /** `near` is what `link_neighbors` yields for the block. */
  method FillKdIncoming(h: Partners, p: Partners, prev: Round, next: Next, gid: int,
          ghost neighbors: int -> seq<int>, near: seq<int>)
    returns (partners: seq<int>)
    requires KdPartners(h, p) && IsRound(p.Rounds(), prev) && p.Block(gid) && near == neighbors(gid)
    requires next.At? ==> IsRound(p.Rounds(), next.round) && Follows(p.Rounds(), prev, next)
    ensures partners == KdIncoming(h, p, prev, next, gid, neighbors)
  {
    if next.End? {
      return near;
    }
    var x := next.round;
    if x.0 && x.1 < 0 {
      partners := FillIncoming(Swap, p, prev.1 + 1, gid, []);
    } else if x.0 {
      partners := FillIncoming(AllReduce, h, TotalRounds(AllReduce, h), gid, []);
    } else if x.1 == 0 {
      partners := near;
    } else if prev.1 != x.1 - 1 {
      partners := FillIncoming(AllReduce, h, prev.1 + 1, gid, []);
    } else {
      partners := FillIncoming(AllReduce, h, x.1, gid, []);
    }
  }

  ghost function NextOf(rounds: seq<Round>, k: nat): Next
    requires k < |rounds|
  {
    if k + 1 < |rounds| then At(rounds[k + 1]) else End
  }

  lemma {:induction false} HistogramRoundsAt(R: nat, i: nat, m: nat)
    requires i < R
    ensures |HistogramRounds(R, i, m)| == m
    ensures forall k :: 0 <= k < m ==> HistogramRounds(R, i, m)[k] == (false, SubRound(R, i, k))
  {
    if m > 0 {
      HistogramRoundsAt(R, i, m - 1);
    }
  }

  lemma IterationFollows(R: nat, i: nat, k: nat)
    requires i < R && k + 1 < |Iteration(R, i)|
    ensures IsRound(R, Iteration(R, i)[k])
    ensures Follows(R, Iteration(R, i)[k], At(Iteration(R, i)[k + 1]))
  {
    var n := 2 * (R - i);
    HistogramRoundsAt(R, i, n);
    var it := Iteration(R, i);
    if k < n {
      assert it[k] == (false, SubRound(R, i, k));
      if k + 1 < n {
        assert it[k + 1] == (false, SubRound(R, i, k + 1));
      }
    }
  }

  lemma IterationEnds(R: nat, i: nat)
    requires i < R
    ensures |Iteration(R, i)| == 2 * (R - i) + 2
    ensures Iteration(R, i)[0] == (false, 0) && Iteration(R, i)[|Iteration(R, i)| - 1] == (true, -1)
  {
    HistogramRoundsAt(R, i, 2 * (R - i));
  }

  /** The round at position m of iteration i. */
  function RoundAt(R: nat, i: nat, m: nat): Round
    requires i < R
  {
    if m < 2 * (R - i) then (false, SubRound(R, i, m)) else if m == 2 * (R - i) then SwapRound(i) else LinkRound()
  }

  lemma RoundKind(R: nat, i: nat, m: nat)
    requires i < R && m < |Iteration(R, i)|
    ensures |Iteration(R, i)| == 2 * (R - i) + 2
    ensures Iteration(R, i)[m] == RoundAt(R, i, m)
  {
    IterationEnds(R, i);
    HistogramRoundsAt(R, i, 2 * (R - i));
  }

  /** Where an iteration stands in the list of rounds. */
  lemma {:induction false} IterationsAt(R: nat, dim: nat, j: nat, i: nat, m: nat)
    requires i < j <= R && m < |Iteration(R, i)| && dim > 0
    ensures |Iterations(R, i)| + m < |Iterations(R, j)| == |Dims(R, dim, j)|
    ensures Iterations(R, j)[|Iterations(R, i)| + m] == Iteration(R, i)[m]
    ensures Dims(R, dim, j)[|Iterations(R, i)| + m] == i % dim
  {
    SameLengths(R, dim, j - 1);
    var more := seq(|Iteration(R, j - 1)|, _ => (j - 1) % dim);
    if i < j - 1 {
      IterationsAt(R, dim, j - 1, i, m);
      ConcatAt(Iterations(R, j - 1), Iteration(R, j - 1), |Iterations(R, i)| + m);
      ConcatAt(Dims(R, dim, j - 1), more, |Iterations(R, i)| + m);
    } else {
      ConcatAt(Iterations(R, i), Iteration(R, i), |Iterations(R, i)| + m);
      ConcatAt(Dims(R, dim, i), more, |Iterations(R, i)| + m);
    }
  }

  lemma ConcatAt<A>(a: seq<A>, b: seq<A>, k: nat)
    requires k < |a| + |b|
    ensures (a + b)[k] == if k < |a| then a[k] else b[k - |a|]
  {
  }

  lemma {:induction false} SameLengths(R: nat, dim: nat, i: nat)
    requires i <= R && dim > 0
    ensures |Dims(R, dim, i)| == |Iterations(R, i)|
  {
    if i > 0 { SameLengths(R, dim, i - 1); }
  }

  /** Every round of the schedule is followed by one of its legitimate successors. */
  lemma {:induction false} ScheduleFollows(R: nat, i: nat, k: nat)
    requires i <= R && k < |Iterations(R, i)|
    ensures IsRound(R, Iterations(R, i)[k])
    ensures Follows(R, Iterations(R, i)[k], NextOf(Iterations(R, i), k))
    ensures k + 1 == |Iterations(R, i)| ==> Iterations(R, i)[k] == (true, -1)
  {
    var less, it := Iterations(R, i - 1), Iteration(R, i - 1);
    IterationEnds(R, i - 1);
    if k < |less| {
      ScheduleFollows(R, i - 1, k);
    } else if k + 1 < |less| + |it| {
      IterationFollows(R, i - 1, k - |less|);
    }
  }

  /** `reduce` expects exactly what is sent in every round of the schedule, provided links are symmetric
      when the link rounds use them. */
  lemma KdDuality(h: Partners, p: Partners, x: Round, next: Next, a: int, b: int, neighbors: int -> seq<int>)
    requires KdPartners(h, p) && IsRound(p.Rounds(), x) && p.Block(a) && p.Block(b)
    requires Follows(p.Rounds(), x, next) && (next.At? ==> IsRound(p.Rounds(), next.round))
    requires b in neighbors(a) <==> a in neighbors(b)
    ensures ((next.At? ==> KdActive(h, p, next.round, b)) && a in KdIncoming(h, p, x, next, b, neighbors))
        <==> (KdActive(h, p, x, a) && b in KdOutgoing(h, p, x, a, neighbors))
  {
    if x.0 {
      DualityOfTrading(h, p, x, next, a, b, neighbors);
    } else {
      Duality(AllReduce, h, x.1, a, b);
    }
  }

  lemma DualityOfTrading(h: Partners, p: Partners, x: Round, next: Next, a: int, b: int, neighbors: int -> seq<int>)
    requires KdPartners(h, p) && IsRound(p.Rounds(), x) && p.Block(a) && p.Block(b) && x.0
    requires Follows(p.Rounds(), x, next) && (next.At? ==> IsRound(p.Rounds(), next.round))
    requires b in neighbors(a) <==> a in neighbors(b)
    ensures ((next.At? ==> KdActive(h, p, next.round, b)) && a in KdIncoming(h, p, x, next, b, neighbors))
        <==> (KdActive(h, p, x, a) && b in KdOutgoing(h, p, x, a, neighbors))
  {
    if x.1 >= 0 { GroupSymmetric(p, x.1, a, b); }
  }

  // ---------- whose histograms arrive ----------

  /** Who a block hears from at position m of iteration i: its group while going up, its root while
      coming back down over the same rounds. */
  ghost function HistogramPartners(h: Partners, i: nat, m: nat, gid: int): seq<int>
    requires h.Valid() && h.Block(gid) && i < h.Rounds() && 0 < m <= 2 * (h.Rounds() - i)
  {
    if m <= h.Rounds() - i then Group(h, m - 1, gid) else Root(h, 2 * (h.Rounds() - i) - m, gid)
  }

  ghost function HistogramSources(h: Partners, i: nat): Sources
    requires h.Valid() && i < h.Rounds()
  {
    (m, c) => if h.Block(c) && 0 < m <= 2 * (h.Rounds() - i) then HistogramPartners(h, i, m, c) else []
  }

  /** The contributions block gid holds at position m of iteration i: its own at first, then what its
      incoming partners held. */
  ghost function HistogramFrom(h: Partners, i: nat, m: nat, gid: int): multiset<int>
    requires h.Valid() && h.Block(gid) && i < h.Rounds() && m <= 2 * (h.Rounds() - i)
  {
    Collect(HistogramSources(h, i), m, gid)
  }

  /** The partners used there are the ones `incoming` lists for that round. */
  lemma IncomingOfRound(h: Partners, p: Partners, i: nat, m: nat, prev: Round, x: Round, gid: int,
                        neighbors: int -> seq<int>)
    requires KdPartners(h, p) && p.Block(gid) && i < p.Rounds() && 0 < m <= 2 * (p.Rounds() - i)
    requires prev == RoundAt(p.Rounds(), i, m - 1) && x == RoundAt(p.Rounds(), i, m)
    ensures IsRound(p.Rounds(), prev) && IsRound(p.Rounds(), x) && Follows(p.Rounds(), prev, At(x))
    ensures KdIncoming(h, p, prev, At(x), gid, neighbors) == HistogramPartners(h, i, m, gid)
  {
    if m < p.Rounds() - i {
      assert x == (false, m);
    } else if m == p.Rounds() - i {
      assert x == (false, m + 2 * i);
    } else if m < 2 * (p.Rounds() - i) {
      assert prev == (false, m - 1 + 2 * i);
    }
  }

  lemma HistogramGoesUp(h: Partners, i: nat)
    requires h.Valid() && i < h.Rounds()
    ensures GathersUp(h, h.Rounds() - i, HistogramSources(h, i))
  {
  }

  lemma HistogramGoesDown(h: Partners, i: nat)
    requires h.Valid() && i < h.Rounds()
    ensures CopiesDown(h, h.Rounds() - i, HistogramSources(h, i))
  {
  }

  lemma SameFromAgree(h: Partners, m: nat, a: int, b: int, c: int)
    requires h.Valid() && h.Block(b) && h.Block(c) && SameFrom(h, m, b, c)
    ensures AgreeFrom(h, m, a, b) <==> AgreeFrom(h, m, a, c)
  {
  }

  lemma HistogramAtEnd(h: Partners, i: nat, gid: int, a: int)
    requires h.Valid() && h.Block(gid) && i < h.Rounds()
    ensures HistogramFrom(h, i, 2 * (h.Rounds() - i), gid)[a] == One(AgreeFrom(h, h.Rounds() - i, a, gid))
  {
    var top := h.Rounds() - i;
    var sources := HistogramSources(h, i);
    HistogramGoesUp(h, i);
    HistogramGoesDown(h, i);
    var source := ComingDown(h, top, sources, 2 * top, gid);
    GoingUp(h, top, sources, top, source, a);
    SameFromAgree(h, top, a, source, gid);
  }

  // ---------- gid bits ----------

  lemma {:induction false} BeforeIsPow2(h: Partners, p: Partners, t: nat)
    requires KdPartners(h, p) && t <= p.Rounds()
    ensures Factoring.Before(h.kvs, t, 0) == Pow2(t)
  {
    if t > 0 {
      BeforeIsPow2(h, p, t - 1);
      assert h.kvs[t - 1] == DimK(0, 2);
    }
  }

  /** Digit t of the histogram partners and digit R-1-t of the swap partners are the same gid bit. */
  lemma SameBit(h: Partners, p: Partners, t: nat, a: int)
    requires KdPartners(h, p) && t < p.Rounds() && p.Block(a)
    ensures h.Block(a) && Digit(h, t, a) == Digit(p, p.Rounds() - 1 - t, a)
  {
    HalvingShape(p, p.Rounds() - 1 - t);
    BeforeIsPow2(h, p, t);
    StepPositive(h, t);
    StepPositive(p, p.Rounds() - 1 - t);
    assert h.steps[t] == p.steps[p.Rounds() - 1 - t] == Pow2(t);
  }

  lemma SameLeadingBits(h: Partners, p: Partners, i: nat, a: int, b: int)
    requires KdPartners(h, p) && i <= p.Rounds() && p.Block(a) && p.Block(b)
    ensures AgreeFrom(h, p.Rounds() - i, a, b) <==> AgreeBelow(p, i, a, b)
  {
    var R := p.Rounds();
    if AgreeFrom(h, R - i, a, b) {
      forall s | 0 <= s < i ensures Digit(p, s, a) == Digit(p, s, b) {
        SameBit(h, p, R - 1 - s, a);
        SameBit(h, p, R - 1 - s, b);
      }
    }
    if AgreeBelow(p, i, a, b) {
      forall t | R - i <= t < R ensures Digit(h, t, a) == Digit(h, t, b) {
        SameBit(h, p, t, a);
        SameBit(h, p, t, b);
        assert Digit(p, R - 1 - t, a) == Digit(p, R - 1 - t, b);
      }
    }
  }

  lemma SameLeadingBitsOrNone(h: Partners, p: Partners, i: nat, a: int, b: int)
    requires KdPartners(h, p) && i <= p.Rounds() && p.Block(b)
    ensures AgreeFrom(h, p.Rounds() - i, a, b) <==> p.Block(a) && AgreeBelow(p, i, a, b)
  {
    if p.Block(a) {
      SameLeadingBits(h, p, i, a, b);
    }
  }

  /** When the swap round of iteration i begins, every block holds the histograms of exactly the blocks
      that share its first i gid bits, each once, despite the skipped all-reduce rounds. */
  lemma HistogramOfNode(h: Partners, p: Partners, i: nat, gid: int, a: int)
    requires KdPartners(h, p) && i < p.Rounds() && p.Block(gid)
    ensures HistogramFrom(h, i, 2 * (p.Rounds() - i), gid)[a] == One(p.Block(a) && AgreeBelow(p, i, a, gid))
  {
    HistogramAtEnd(h, i, gid, a);
    SameLeadingBitsOrNone(h, p, i, a, gid);
  }
}
