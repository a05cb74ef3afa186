/** all_to_all over nblocks >= 1 blocks with fanout k >= 2: the butterfly of swap rounds delivers every
    queue to its target, with its bytes, exactly once. */
module AllToAll {
  import opened Arith
  import opened Coordinates
  import opened Factoring
  import opened Groups
  import opened Schedules
  import opened Counting
  import opened RoutedQueues

  /** queues[f][t] is what block f enqueued for block t. */
  type Queues = seq<seq<seq<int>>>

  ghost predicate Square(q: Queues) {
    |q| > 0 && forall f :: 0 <= f < |q| ==> |q[f]| == |q|
  }

  /** The partners all_to_all builds: one dimension, matched by distance halving. */
  ghost predicate Butterfly(p: Partners, q: Queues) {
    p.Valid() && !p.contiguous && p.divs == [|q|] && Square(q)
  }

  /** How many targets a block still serves when round r begins. */
  function Span(p: Partners, r: nat): nat
    requires r <= p.Rounds()
  {
    After(p.kvs, r, 0)
  }

  lemma Spans(p: Partners, q: Queues, r: nat)
    requires Butterfly(p, q) && r <= p.Rounds()
    ensures Span(p, r) > 0 && Volume(p.divs) == |q| && Span(p, 0) == |q| && Span(p, p.Rounds()) == 1
    ensures r < p.Rounds() ==>
              p.kvs[r].dim == 0 && p.kvs[r].size > 0 && p.steps[r] == Span(p, r + 1) > 0
                  && Span(p, r) == p.kvs[r].size * Span(p, r + 1)
  {
    StridesPositive(p.divs, p.kvs, r, 0);
    assert Volume(p.divs[1..]) == 1;
    if r < p.Rounds() {
      StepPositive(p, r);
    }
  }

  lemma DigitIs(p: Partners, q: Queues, r: nat, t: int)
    requires Butterfly(p, q) && r < p.Rounds() && p.Block(t)
    ensures p.steps[r] > 0 && p.kvs[r].size > 0 && Digit(p, r, t) == t / p.steps[r] % p.kvs[r].size
  {
    Spans(p, q, r);
    DivUnique(t, |q|, 0, t);
    assert Coords(t, p.divs)[0] == t % p.divs[0];
  }

  // ---------- which targets a block serves ----------

  /** Sharing the first m digits is having the same quotient by the span of round m. */
  lemma {:induction false} AgreeBelowQuotient(p: Partners, q: Queues, m: nat, a: int, b: int)
    requires Butterfly(p, q) && m <= p.Rounds() && p.Block(a) && p.Block(b)
    ensures Span(p, m) > 0 && (AgreeBelow(p, m, a, b) <==> a / Span(p, m) == b / Span(p, m))
  {
    Spans(p, q, m);
    if m == 0 {
      DivUnique(a, |q|, 0, a);
      DivUnique(b, |q|, 0, b);
    } else {
      AgreeBelowQuotient(p, q, m - 1, a, b);
      Spans(p, q, m - 1);
      DigitIs(p, q, m - 1, a);
      DigitIs(p, q, m - 1, b);
      QuotientStep(a, b, Span(p, m), p.kvs[m - 1].size);
      if AgreeBelow(p, m, a, b) {
        assert Digit(p, m - 1, a) == Digit(p, m - 1, b);
        assert AgreeBelow(p, m - 1, a, b);
      }
    }
  }

  lemma QuotientStep(a: int, b: int, s: int, k: int)
    requires a >= 0 && b >= 0 && s > 0 && k > 0
    ensures k * s > 0
    ensures a / s == b / s <==> (a / (k * s) == b / (k * s) && a / s % k == b / s % k)
  {
    MulPos(k, s);
    assert k * s == s * k;
    DivMul(a, s, k);
    DivMul(b, s, k);
    if a / (k * s) == b / (k * s) && a / s % k == b / s % k {
      AgreeAtDigit(a, b, s, k);
    }
  }

  /** First target of block a when round r begins. */
  ghost function Lo(p: Partners, r: nat, a: int): int
    requires r <= p.Rounds() && Span(p, r) > 0
  {
    a / Span(p, r) * Span(p, r)
  }

  /** The targets with a's quotient are the run of `Span` targets from Lo on. */
  lemma InRun(t: int, a: int, w: int)
    requires t >= 0 && a >= 0 && w > 0
    ensures t / w == a / w <==> a / w * w <= t < a / w * w + w
  {
    DivNonneg(t, w);
    DivNonneg(a, w);
    MulDistr(a / w, 1, w);
    if t / w < a / w { MulMono(t / w + 1, a / w, w); MulDistr(t / w, 1, w); }
    if t / w > a / w { MulMono(a / w + 1, t / w, w); }
  }

  /** The partner an intermediate round picks for target t is t's digit of that round. */
  lemma PartnerIsDigit(p: Partners, q: Queues, r: nat, a: int, t: int)
    requires Butterfly(p, q) && r < p.Rounds() && p.Block(a) && p.Block(t) && AgreeBelow(p, r, t, a)
    ensures Span(p, r) > 0 && p.steps[r] > 0
    ensures (t - Lo(p, r, a)) / p.steps[r] == Digit(p, r, t)
  {
    Spans(p, q, r);
    AgreeBelowQuotient(p, q, r, t, a);
    DigitIs(p, q, r, t);
    DivNonneg(t, Span(p, r));
    var s, k := p.steps[r], p.kvs[r].size;
    assert Span(p, r) == s * k;
    DivMul(t, s, k);
    assert t - Lo(p, r, a) == t % (s * k);
    DivNonneg(t, s);
    DivUnique(t - Lo(p, r, a), s, t / s % k, t % s);
  }

  // ---------- what is in the buffers of each round ----------

  ghost function OutItems(p: Partners, q: Queues, r: nat, a: int, j: nat): seq<Item>
    requires Butterfly(p, q) && r < p.Rounds() && p.Block(a) && j < p.kvs[r].size
    decreases r, 0
  {
    Spans(p, q, r);
    MulMono(0, j, p.steps[r]);
    MulMono(j + 1, p.kvs[r].size, p.steps[r]);
    if r == 0 then OwnItems(a, q[a], j * p.steps[0], (j + 1) * p.steps[0])
    else Select(AllItems(InFrames(p, q, r, a)), Lo(p, r, a), p.steps[r], j)
  }

  /** The buffer block a sends to partner j in round r. */
  ghost function OutFrame(p: Partners, q: Queues, r: nat, a: int, j: nat): Frame
    requires Butterfly(p, q) && r < p.Rounds() && p.Block(a) && j < p.kvs[r].size
    decreases r, 1
  {
    Spans(p, q, r);
    Frame(Lo(p, r, a) + p.steps[r] * j, Lo(p, r, a) + p.steps[r] * (j + 1), OutItems(p, q, r, a, j))
  }

  /** The buffers block a receives for round r, in the order of its incoming partners. */
  ghost function InFrames(p: Partners, q: Queues, r: nat, a: int): seq<Frame>
    requires Butterfly(p, q) && 0 < r <= p.Rounds() && p.Block(a)
    decreases r - 1, 2
  {
    GroupDistinct(p, r - 1, a);
    DigitRange(p, r - 1, a);
    var g := Group(p, r - 1, a);
    seq(|g|, i requires 0 <= i < |g| => (assert g[i] in g; OutFrame(p, q, r - 1, g[i], Digit(p, r - 1, a))))
  }

  ghost predicate Genuine(q: Queues, x: Item) {
    0 <= x.from < |q| && 0 <= x.to < |q[x.from]| && x.bytes == q[x.from][x.to]
  }

  /** x, on its way, is at block a when round r begins: from there its remaining digits are its source's. */
  ghost predicate Here(p: Partners, q: Queues, r: nat, a: int, x: Item)
    requires Butterfly(p, q) && r <= p.Rounds() && p.Block(a)
  {
    Genuine(q, x) && p.Block(x.from) && p.Block(x.to) && AgreeBelow(p, r, x.to, a) && AgreeFrom(p, r, x.from, a)
  }

  predicate Own(gid: int, queues: seq<seq<int>>, lo: nat, hi: nat, x: Item)
    requires hi <= |queues|
  {
    x.from == gid && lo <= x.to < hi && x.bytes == queues[x.to]
  }

  lemma {:induction false} OwnCount(gid: int, queues: seq<seq<int>>, lo: nat, hi: nat, x: Item)
    requires hi <= |queues|
    ensures multiset(OwnItems(gid, queues, lo, hi))[x] == One(Own(gid, queues, lo, hi, x))
    decreases hi - lo
  {
    if hi > lo {
      OwnCount(gid, queues, lo, hi - 1, x);
      var last := Item(gid, hi - 1, queues[hi - 1]);
      AppendCount(OwnItems(gid, queues, lo, hi - 1), last, x);
      assert x == last <==> Own(gid, queues, lo, hi, x) && !Own(gid, queues, lo, hi - 1, x);
    } else {
      assert OwnItems(gid, queues, lo, hi) == [];
    }
  }

  lemma AppendCount(items: seq<Item>, last: Item, x: Item)
    ensures multiset(items + [last])[x] == multiset(items)[x] + One(x == last)
  {
  }

  lemma {:induction false} SelectCount(items: seq<Item>, lo: int, group: nat, j: int, x: Item)
    requires group > 0
    ensures multiset(Select(items, lo, group, j))[x] == if (x.to - lo) / group == j then multiset(items)[x] else 0
  {
    if items != [] {
      SelectCount(items[1..], lo, group, j, x);
      assert items == [items[0]] + items[1..];
    }
  }

  lemma {:induction false} AllItemsGather(frames: seq<Frame>, g: seq<int>, held: int -> multiset<Item>)
    requires |frames| == |g| && forall i :: 0 <= i < |g| ==> held(g[i]) == multiset(frames[i].items)
    ensures multiset(AllItems(frames)) == Gather(held, g)
  {
    if g == [] {
      assert AllItems(frames) == [];
    } else {
      AllItemsCons(frames);
      AllItemsGather(frames[1..], g[1..], held);
    }
  }

  lemma {:induction false} AllItemsCons(frames: seq<Frame>)
    requires frames != []
    ensures AllItems(frames) == frames[0].items + AllItems(frames[1..])
  {
    var n := |frames| - 1;
    var rest := frames[1..];
    if n == 0 {
      assert frames[..0] == [] && rest == [];
      assert AllItems(frames[..0]) == [];
    } else {
      AllItemsCons(frames[..n]);
      var mid := frames[..n][1..];
      assert rest[..n - 1] == mid && rest[n - 1] == frames[n];
      assert AllItems(rest) == AllItems(mid) + frames[n].items;
      Assoc(frames[0].items, AllItems(mid), frames[n].items);
    }
  }

  lemma Assoc(a: seq<Item>, b: seq<Item>, c: seq<Item>)
    ensures a + b + c == a + (b + c)
  {
  }

  /** Every genuine item is in exactly one outgoing buffer of round r, once: that of the block where it
      is, towards the partner whose position is its target's digit. */
  lemma {:induction false} OutCount(p: Partners, q: Queues, r: nat, a: int, j: nat, x: Item)
    requires Butterfly(p, q) && r < p.Rounds() && p.Block(a) && j < p.kvs[r].size
    ensures multiset(OutItems(p, q, r, a, j))[x] == One(Here(p, q, r, a, x) && Digit(p, r, x.to) == j)
    decreases r, 0
  {
    if r == 0 {
      FirstOutCount(p, q, a, j, x);
    } else {
      Spans(p, q, r);
      InCount(p, q, r, a, x);
      SelectCount(AllItems(InFrames(p, q, r, a)), Lo(p, r, a), p.steps[r], j, x);
      if Here(p, q, r, a, x) {
        PartnerIsDigit(p, q, r, a, x.to);
      }
    }
  }

  lemma FirstDigit(p: Partners, q: Queues, j: nat, t: int)
    requires Butterfly(p, q) && 0 < p.Rounds() && p.Block(t)
    ensures p.steps[0] > 0 && (Digit(p, 0, t) == j <==> j * p.steps[0] <= t < (j + 1) * p.steps[0])
  {
    Spans(p, q, 0);
    var s, k := p.steps[0], p.kvs[0].size;
    DigitIs(p, q, 0, t);
    DivNonneg(t, s);
    QuotientBound(t, s, k);
    DivUnique(t / s, k, 0, t / s);
    MulMono(0, j, s);
    MulDistr(j, 1, s);
    DivUnique(j * s, s, j, 0);
    InRun(t, j * s, s);
  }

  lemma FirstOutCount(p: Partners, q: Queues, a: int, j: nat, x: Item)
    requires Butterfly(p, q) && 0 < p.Rounds() && p.Block(a) && j < p.kvs[0].size
    ensures multiset(OutItems(p, q, 0, a, j))[x] == One(Here(p, q, 0, a, x) && Digit(p, 0, x.to) == j)
  {
    Spans(p, q, 0);
    var s, k := p.steps[0], p.kvs[0].size;
    MulMono(0, j, s);
    MulMono(j + 1, k, s);
    OwnCount(a, q[a], j * s, (j + 1) * s, x);
    if p.Block(x.to) {
      FirstDigit(p, q, j, x.to);
    }
    if p.Block(x.from) && AgreeFrom(p, 0, x.from, a) {
      DigitsIdentify(p, x.from, a);
    }
  }

  /** What the member c of a's group sends to a. */
  ghost function SentFrom(p: Partners, q: Queues, r: nat, a: int, c: int): multiset<Item>
    requires Butterfly(p, q) && 0 < r <= p.Rounds() && p.Block(a)
  {
    DigitRange(p, r - 1, a);
    if p.Block(c) then multiset(OutItems(p, q, r - 1, c, Digit(p, r - 1, a))) else multiset{}
  }

  ghost function SentTo(p: Partners, q: Queues, r: nat, a: int): int -> multiset<Item>
    requires Butterfly(p, q) && 0 < r <= p.Rounds() && p.Block(a)
  {
    c => SentFrom(p, q, r, a, c)
  }

  lemma InFramesGather(p: Partners, q: Queues, r: nat, a: int)
    requires Butterfly(p, q) && 0 < r <= p.Rounds() && p.Block(a)
    ensures multiset(AllItems(InFrames(p, q, r, a))) == Gather(SentTo(p, q, r, a), Group(p, r - 1, a))
  {
    GroupDistinct(p, r - 1, a);
    DigitRange(p, r - 1, a);
    var g := Group(p, r - 1, a);
    forall i | 0 <= i < |g| ensures SentFrom(p, q, r, a, g[i]) == multiset(InFrames(p, q, r, a)[i].items) {
      assert g[i] in g;
    }
    AllItemsGather(InFrames(p, q, r, a), g, SentTo(p, q, r, a));
  }

  ghost predicate Bound(p: Partners, q: Queues, r: nat, a: int, x: Item)
    requires Butterfly(p, q) && r <= p.Rounds() && p.Block(a)
  {
    Genuine(q, x) && p.Block(x.from) && p.Block(x.to) && AgreeBelow(p, r, x.to, a)
  }

  lemma {:induction false} MemberCount(p: Partners, q: Queues, r: nat, a: int, c: int, x: Item)
    requires Butterfly(p, q) && 0 < r <= p.Rounds() && p.Block(a) && c in Group(p, r - 1, a)
    ensures SentFrom(p, q, r, a, c)[x] == One(Bound(p, q, r, a, x) && AgreeFrom(p, r - 1, x.from, c))
    decreases r - 1, 1
  {
    GroupDistinct(p, r - 1, a);
    DigitRange(p, r - 1, a);
    var j := Digit(p, r - 1, a);
    OutCount(p, q, r - 1, c, j, x);
    if p.Block(x.to) {
      AgreeBelowAcross(p, r - 1, x.to, a, c);
    }
  }

  /** Every genuine item is in the incoming buffers of exactly the block where it is, once. */
  lemma {:induction false} InCount(p: Partners, q: Queues, r: nat, a: int, x: Item)
    requires Butterfly(p, q) && 0 < r <= p.Rounds() && p.Block(a)
    ensures multiset(AllItems(InFrames(p, q, r, a)))[x] == One(Here(p, q, r, a, x))
    decreases r - 1, 3
  {
    InFramesGather(p, q, r, a);
    SentCount(p, q, r, a, x);
  }

  lemma {:induction false} SentCount(p: Partners, q: Queues, r: nat, a: int, x: Item)
    requires Butterfly(p, q) && 0 < r <= p.Rounds() && p.Block(a)
    ensures Gather(SentTo(p, q, r, a), Group(p, r - 1, a))[x] == One(Bound(p, q, r, a, x) && AgreeFrom(p, r, x.from, a))
    decreases r - 1, 2
  {
    var sent := SentTo(p, q, r, a);
    forall c | c in Group(p, r - 1, a)
      ensures sent(c)[x] == One(Bound(p, q, r, a, x) && AgreeFrom(p, r - 1, x.from, c))
    {
      MemberCount(p, q, r, a, c, x);
    }
    GatherGroup(p, r - 1, a, sent, x, x.from, Bound(p, q, r, a, x));
  }

  lemma AgreeBelowAcross(p: Partners, r: nat, t: int, a: int, c: int)
    requires p.Valid() && r < p.Rounds() && p.Block(t) && p.Block(a) && p.Block(c) && c in Group(p, r, a)
    ensures AgreeBelow(p, r + 1, t, a) <==> AgreeBelow(p, r, t, c) && Digit(p, r, t) == Digit(p, r, a)
  {
    InGroup(p, r, a, c);
    if AgreeBelow(p, r, t, c) && Digit(p, r, t) == Digit(p, r, a) {
      forall s | 0 <= s < r + 1 ensures Digit(p, s, t) == Digit(p, s, a) {
        if s < r { assert Digit(p, s, t) == Digit(p, s, c); }
      }
    }
    if AgreeBelow(p, r + 1, t, a) {
      forall s | 0 <= s < r ensures Digit(p, s, t) == Digit(p, s, c) {
        assert Digit(p, s, t) == Digit(p, s, a);
      }
      assert Digit(p, r, t) == Digit(p, r, a);
    }
  }

  // ---------- delivery ----------

  ghost predicate Bounded(frames: seq<Frame>, lo: int, hi: int) {
    forall i :: 0 <= i < |frames| ==> frames[i].lo == lo && frames[i].hi == hi
  }

  lemma {:induction false} ItemOfFrame(frames: seq<Frame>, i: nat, x: Item)
    requires i < |frames| && x in frames[i].items
    ensures x in AllItems(frames)
  {
    var n := |frames| - 1;
    if i < n {
      ItemOfFrame(frames[..n], i, x);
    }
  }

  /** Lo of the next round is the start of the run the previous round sent. */
  lemma NextLo(p: Partners, q: Queues, r: nat, c: int, a: int)
    requires Butterfly(p, q) && 0 < r <= p.Rounds() && p.Block(a) && p.Block(c) && c in Group(p, r - 1, a)
    ensures Span(p, r) > 0 && Span(p, r - 1) > 0 && p.steps[r - 1] == Span(p, r)
    ensures Lo(p, r - 1, c) + p.steps[r - 1] * Digit(p, r - 1, a) == Lo(p, r, a)
  {
    Spans(p, q, r);
    Spans(p, q, r - 1);
    InGroup(p, r - 1, a, c);
    AgreeBelowQuotient(p, q, r - 1, c, a);
    DigitIs(p, q, r - 1, a);
    RunStart(a, c, Span(p, r), p.kvs[r - 1].size);
  }

  lemma RunStart(a: int, c: int, s: int, k: int)
    requires a >= 0 && c >= 0 && s > 0 && k > 0 && k * s > 0 && c / (k * s) == a / (k * s)
    ensures c / (k * s) * (k * s) + s * (a / s % k) == a / s * s
  {
    var h, d := a / s / k, a / s % k;
    assert k * s == s * k;
    DivMul(a, s, k);
    DivNonneg(a, s);
    DivNonneg(a / s, k);
    MulDistr(h * k, d, s);
    MulAssoc(h, k, s);
    assert d * s == s * d;
  }

  lemma FrameBounds(p: Partners, q: Queues, r: nat, a: int, i: nat)
    requires Butterfly(p, q) && 0 < r <= p.Rounds() && p.Block(a) && i < |InFrames(p, q, r, a)|
    ensures Span(p, r) > 0
    ensures InFrames(p, q, r, a)[i].lo == Lo(p, r, a) && InFrames(p, q, r, a)[i].hi == Lo(p, r, a) + Span(p, r)
  {
    Spans(p, q, r);
    GroupDistinct(p, r - 1, a);
    DigitRange(p, r - 1, a);
    var c := Group(p, r - 1, a)[i];
    assert c in Group(p, r - 1, a);
    NextLo(p, q, r, c, a);
    var j, s := Digit(p, r - 1, a), p.steps[r - 1];
    assert s * (j + 1) == s * j + s;
  }

  lemma InFramesBounds(p: Partners, q: Queues, r: nat, a: int)
    requires Butterfly(p, q) && 0 < r <= p.Rounds() && p.Block(a)
    ensures Span(p, r) > 0 && Bounded(InFrames(p, q, r, a), Lo(p, r, a), Lo(p, r, a) + Span(p, r))
  {
    Spans(p, q, r);
    forall i | 0 <= i < |InFrames(p, q, r, a)|
      ensures InFrames(p, q, r, a)[i].lo == Lo(p, r, a) && InFrames(p, q, r, a)[i].hi == Lo(p, r, a) + Span(p, r)
    {
      FrameBounds(p, q, r, a, i);
    }
  }

  /** The incoming buffers of an intermediate round meet what its routing relies on. */
  lemma InFramesWellRouted(p: Partners, q: Queues, r: nat, a: int)
    requires Butterfly(p, q) && 0 < r <= p.Rounds() && p.Block(a)
    ensures Span(p, r) > 0 && WellRouted(InFrames(p, q, r, a), Lo(p, r, a), Lo(p, r, a) + Span(p, r))
  {
    InFramesBounds(p, q, r, a);
    var frames := InFrames(p, q, r, a);
    forall i, c | 0 <= i < |frames| && 0 <= c < |frames[i].items|
      ensures Lo(p, r, a) <= frames[i].items[c].to < Lo(p, r, a) + Span(p, r)
    {
      var x := frames[i].items[c];
      ItemOfFrame(frames, i, x);
      InCount(p, q, r, a, x);
      AgreeBelowQuotient(p, q, r, x.to, a);
      InRun(x.to, a, Span(p, r));
    }
  }

  lemma {:induction false} DeliverSpec(items: seq<Item>)
    ensures forall x :: x in items ==> x.from in Deliver(items)
    ensures forall f :: f in Deliver(items) ==> exists x :: x in items && x.from == f && x.bytes == Deliver(items)[f]
  {
    if items != [] {
      var n := |items| - 1;
      DeliverSpec(items[..n]);
      assert items[n] in items;
      forall f | f in Deliver(items)
        ensures exists x :: x in items && x.from == f && x.bytes == Deliver(items)[f]
      {
        if f == items[n].from {
          assert items[n].bytes == Deliver(items)[f];
        } else {
          assert f in Deliver(items[..n]);
          var x :| x in items[..n] && x.from == f && x.bytes == Deliver(items[..n])[f];
          assert x in items;
        }
      }
    }
  }

  /** After the last round, block a holds exactly what was enqueued for it: one item from every block. */
  lemma ArrivesOnce(p: Partners, q: Queues, a: int, x: Item)
    requires Butterfly(p, q) && p.Rounds() > 0 && p.Block(a)
    ensures multiset(AllItems(InFrames(p, q, p.Rounds(), a)))[x] == One(Genuine(q, x) && x.to == a)
  {
    InCount(p, q, p.Rounds(), a, x);
    Spans(p, q, 0);
    if Genuine(q, x) {
      AgreeBelowQuotient(p, q, p.Rounds(), x.to, a);
      Spans(p, q, p.Rounds());
      assert x.to / 1 == x.to && a / 1 == a;
    }
  }

  /** The incoming queues of block a once the final round has unpacked its buffers. */
  lemma Delivered(p: Partners, q: Queues, a: int)
    requires Butterfly(p, q) && p.Rounds() > 0 && p.Block(a) && a < |q|
    ensures Deliver(AllItems(InFrames(p, q, p.Rounds(), a))) == map f: int | 0 <= f < |q| :: q[f][a]
  {
    var items := AllItems(InFrames(p, q, p.Rounds(), a));
    DeliverSpec(items);
    var got := Deliver(items);
    forall f | f in got ensures 0 <= f < |q| && got[f] == q[f][a] {
      var x :| x in items && x.from == f && x.bytes == got[f];
      ArrivesOnce(p, q, a, x);
      assert x in multiset(items);
    }
    forall f | 0 <= f < |q| ensures f in got {
      var x := Item(f, a, q[f][a]);
      ArrivesOnce(p, q, a, x);
      assert x in multiset(items);
    }
  }

  // ---------- the whole reduction ----------

  /** sent[a][b] is the buffer in block a's outgoing queue for block b. */
  ghost predicate SentInRound(p: Partners, q: Queues, r: nat, sent: seq<map<int, seq<Token>>>)
    requires Butterfly(p, q) && r < p.Rounds()
  {
    && |sent| == |q|
    && forall a :: 0 <= a < |q| && p.Block(a) ==> SentBy(p, q, r, a, sent[a])
  }

  ghost predicate SentBy(p: Partners, q: Queues, r: nat, a: int, out: map<int, seq<Token>>)
    requires Butterfly(p, q) && r < p.Rounds() && p.Block(a)
  {
    StepPositive(p, r);
    forall j :: 0 <= j < p.kvs[r].size ==>
      Group(p, r, a)[j] in out && out[Group(p, r, a)[j]] == Encode(OutFrame(p, q, r, a, j))
  }

  /** Puts buffer j into the outgoing queue of the j-th partner. */
  method Address(targets: seq<int>, outs: seq<seq<Token>>) returns (out: map<int, seq<Token>>)
    requires |targets| == |outs| && Distinct(targets)
    ensures forall j :: 0 <= j < |targets| ==> targets[j] in out && out[targets[j]] == outs[j]
  {
    out := map[];
    for i := 0 to |targets|
      invariant forall j :: 0 <= j < i ==> targets[j] in out && out[targets[j]] == outs[j]
    {
      out := out[targets[i] := outs[i]];
    }
  }

  method RunFirst(p: Partners, q: Queues) returns (sent: seq<map<int, seq<Token>>>)
    requires Butterfly(p, q) && p.Rounds() > 0
    ensures SentInRound(p, q, 0, sent)
  {
    Spans(p, q, 0);
    sent := [];
    for a := 0 to |q|
      invariant |sent| == a
      invariant forall b :: 0 <= b < a && p.Block(b) ==> SentBy(p, q, 0, b, sent[b])
    {
      var targets := FillOutgoing(Swap, p, 0, a, []);
      assert targets == Group(p, 0, a);
      GroupDistinct(p, 0, a);
      StepPositive(p, 0);
      FirstGroup(p, q);
      var outs := FirstRound(a, q[a], |targets|, |q| / |targets|);
      var out := Address(targets, outs);
      forall j | 0 <= j < |targets| ensures outs[j] == Encode(OutFrame(p, q, 0, a, j)) {
        FirstFrameIs(p, q, a, j);
      }
      sent := sent + [out];
    }
  }

  lemma FirstGroup(p: Partners, q: Queues)
    requires Butterfly(p, q) && p.Rounds() > 0
    ensures p.kvs[0].size > 0 && |q| == p.kvs[0].size * p.steps[0] && |q| / p.kvs[0].size == p.steps[0]
  {
    Spans(p, q, 0);
    var s, k := p.steps[0], p.kvs[0].size;
    assert |q| == s * k;
    DivUnique(|q|, k, s, 0);
  }

  lemma FirstFrameIs(p: Partners, q: Queues, a: int, j: nat)
    requires Butterfly(p, q) && p.Rounds() > 0 && p.Block(a) && 0 <= a < |q| && j < p.kvs[0].size
    ensures p.steps[0] > 0 && (j + 1) * p.steps[0] <= |q[a]|
    ensures FirstFrame(a, q[a], p.steps[0], j) == OutFrame(p, q, 0, a, j)
  {
    Spans(p, q, 0);
    DivUnique(a, |q|, 0, a);
    assert Lo(p, 0, a) == 0;
    MulMono(j + 1, p.kvs[0].size, p.steps[0]);
    assert j * p.steps[0] == p.steps[0] * j && (j + 1) * p.steps[0] == p.steps[0] * (j + 1);
  }

  /** A block sees itself at its own position among the partners of any of its partners. */
  lemma OwnPosition(p: Partners, r: nat, a: int, c: int)
    requires p.Valid() && r < p.Rounds() && p.Block(a) && p.Block(c) && c in Group(p, r, a)
    ensures 0 <= Digit(p, r, a) < p.kvs[r].size == |Group(p, r, c)| && Group(p, r, c)[Digit(p, r, a)] == a
  {
    GroupSymmetric(p, r, c, a);
    InGroup(p, r, c, a);
  }

  lemma FrameOf(p: Partners, q: Queues, r: nat, a: int, i: nat)
    requires Butterfly(p, q) && 0 < r <= p.Rounds() && p.Block(a) && i < |Group(p, r - 1, a)|
        && p.Block(Group(p, r - 1, a)[i])
    requires 0 <= Digit(p, r - 1, a) < p.kvs[r - 1].size
    ensures |InFrames(p, q, r, a)| == |Group(p, r - 1, a)|
    ensures InFrames(p, q, r, a)[i] == OutFrame(p, q, r - 1, Group(p, r - 1, a)[i], Digit(p, r - 1, a))
  {
  }

  lemma HandedOver(p: Partners, q: Queues, r: nat, a: int, i: nat, out: map<int, seq<Token>>)
    requires Butterfly(p, q) && 0 < r <= p.Rounds() && p.Block(a) && i < |Group(p, r - 1, a)|
    requires p.Block(Group(p, r - 1, a)[i]) && SentBy(p, q, r - 1, Group(p, r - 1, a)[i], out)
    ensures |InFrames(p, q, r, a)| == |Group(p, r - 1, a)| && a in out && out[a] == Encode(InFrames(p, q, r, a)[i])
  {
    var c := Group(p, r - 1, a)[i];
    assert c in Group(p, r - 1, a);
    OwnPosition(p, r - 1, a, c);
    FrameOf(p, q, r, a, i);
  }

  /** What the exchange between two rounds hands block a: the queues its incoming partners addressed to it. */
  method ReceiveAll(p: Partners, ghost q: Queues, r: nat, a: int, sent: seq<map<int, seq<Token>>>)
    returns (ins: seq<seq<Token>>)
    requires Butterfly(p, q) && 0 < r <= p.Rounds() && 0 <= a < |sent| && p.Block(a) && SentInRound(p, q, r - 1, sent)
    ensures |ins| == |InFrames(p, q, r, a)| && forall i :: 0 <= i < |ins| ==> ins[i] == Encode(InFrames(p, q, r, a)[i])
  {
    var from := FillIncoming(Swap, p, r, a, []);
    AllHandedOver(p, q, r, a, sent);
    ins := PickUp(from, a, sent, InFrames(p, q, r, a));
  }

  lemma AllHandedOver(p: Partners, q: Queues, r: nat, a: int, sent: seq<map<int, seq<Token>>>)
    requires Butterfly(p, q) && 0 < r <= p.Rounds() && p.Block(a) && SentInRound(p, q, r - 1, sent)
    ensures var from := Group(p, r - 1, a);
            forall i :: 0 <= i < |from| ==>
                0 <= from[i] < |sent| && a in sent[from[i]] && sent[from[i]][a] == Encode(InFrames(p, q, r, a)[i])
  {
    var from := Group(p, r - 1, a);
    Spans(p, q, 0);
    GroupDistinct(p, r - 1, a);
    forall i | 0 <= i < |from|
      ensures 0 <= from[i] < |sent| && a in sent[from[i]] && sent[from[i]][a] == Encode(InFrames(p, q, r, a)[i])
    {
      assert from[i] in from;
      assert SentBy(p, q, r - 1, from[i], sent[from[i]]);
      HandedOver(p, q, r, a, i, sent[from[i]]);
    }
  }

  method PickUp(from: seq<int>, a: int, sent: seq<map<int, seq<Token>>>, ghost frames: seq<Frame>)
    returns (ins: seq<seq<Token>>)
    requires |frames| == |from|
    requires forall i :: 0 <= i < |from| ==>
        0 <= from[i] < |sent| && a in sent[from[i]] && sent[from[i]][a] == Encode(frames[i])
    ensures |ins| == |frames| && forall i :: 0 <= i < |ins| ==> ins[i] == Encode(frames[i])
  {
    ins := [];
    for i := 0 to |from|
      invariant |ins| == i && forall h :: 0 <= h < i ==> ins[h] == Encode(frames[h])
    {
      ins := ins + [sent[from[i]][a]];
    }
  }

  method IntermediateBlock(p: Partners, ghost q: Queues, r: nat, sent: seq<map<int, seq<Token>>>, a: nat)
    returns (out: map<int, seq<Token>>)
    requires Butterfly(p, q) && 0 < r < p.Rounds() && SentInRound(p, q, r - 1, sent) && a < |sent| && p.Block(a)
    ensures SentBy(p, q, r, a, out)
  {
    var ins := ReceiveAll(p, q, r, a, sent);
    var targets := FillOutgoing(Swap, p, r, a, []);
    assert targets == Group(p, r, a);
    GroupDistinct(p, r, a);
    IntermediateReady(p, q, r, a);
    var outs, reserved := IntermediateRound(ins, InFrames(p, q, r, a), |targets|);
    DealtFrames(p, q, r, a, outs);
    out := Address(targets, outs);
    AddressedToPartners(p, q, r, a, targets, outs, out);
  }

  ghost predicate OutFrames(p: Partners, q: Queues, r: nat, a: int, outs: seq<seq<Token>>)
    requires Butterfly(p, q) && r < p.Rounds() && p.Block(a)
  {
    |outs| == p.kvs[r].size && forall j :: 0 <= j < |outs| ==> outs[j] == Encode(OutFrame(p, q, r, a, j))
  }

  lemma DealtFrames(p: Partners, q: Queues, r: nat, a: int, outs: seq<seq<Token>>)
    requires Butterfly(p, q) && 0 < r < p.Rounds() && p.Block(a) && |InFrames(p, q, r, a)| > 0 && p.steps[r] > 0
    requires Dealt(outs, AllItems(InFrames(p, q, r, a)), p.kvs[r].size, InFrames(p, q, r, a)[0].lo, p.steps[r])
    ensures OutFrames(p, q, r, a, outs)
  {
    IntermediateReady(p, q, r, a);
  }

  lemma AddressedToPartners(p: Partners, q: Queues, r: nat, a: int, targets: seq<int>, outs: seq<seq<Token>>,
          out: map<int, seq<Token>>)
    requires Butterfly(p, q) && r < p.Rounds() && p.Block(a) && OutFrames(p, q, r, a, outs)
    requires targets == Group(p, r, a) && |targets| == |outs|
    requires forall j :: 0 <= j < |targets| ==> targets[j] in out && out[targets[j]] == outs[j]
    ensures SentBy(p, q, r, a, out)
  {
    forall j | 0 <= j < p.kvs[r].size
      ensures targets[j] in out && out[targets[j]] == Encode(OutFrame(p, q, r, a, j))
    {
      assert outs[j] == Encode(OutFrame(p, q, r, a, j));
    }
  }

  method RunIntermediate(p: Partners, ghost q: Queues, r: nat, sent: seq<map<int, seq<Token>>>)
    returns (sent': seq<map<int, seq<Token>>>)
    requires Butterfly(p, q) && 0 < r < p.Rounds() && SentInRound(p, q, r - 1, sent)
    ensures SentInRound(p, q, r, sent')
  {
    Spans(p, q, 0);
    sent' := [];
    for a := 0 to |sent|
      invariant |sent'| == a
      invariant forall b :: 0 <= b < a && p.Block(b) ==> SentBy(p, q, r, b, sent'[b])
    {
      var out := IntermediateBlock(p, q, r, sent, a);
      sent' := sent' + [out];
    }
  }

  lemma IntermediateReady(p: Partners, q: Queues, r: nat, a: int)
    requires Butterfly(p, q) && 0 < r < p.Rounds() && p.Block(a)
    ensures var frames := InFrames(p, q, r, a);
            var k := |Group(p, r, a)|;
            && |frames| > 0 && k > 0
            && WellRouted(frames, frames[0].lo, frames[0].hi)
            && frames[0].hi > frames[0].lo && (frames[0].hi - frames[0].lo) % k == 0
            && (frames[0].hi - frames[0].lo) / k == p.steps[r] > 0
            && k == p.kvs[r].size
            && forall j :: 0 <= j < k ==>
                NextFrame(AllItems(frames), frames[0].lo, p.steps[r], j) == OutFrame(p, q, r, a, j)
  {
    Spans(p, q, r);
    InFramesWellRouted(p, q, r, a);
    StepPositive(p, r - 1);
    var k, s := p.kvs[r].size, p.steps[r];
    assert Span(p, r) == s * k;
    DivUnique(Span(p, r), k, s, 0);
  }

  /** all_to_all: whatever the fanout, every block ends with exactly the queue every block enqueued for it. */
  method AllToAllExchange(q: Queues, k: nat) returns (incoming: seq<map<int, seq<int>>>)
    requires Square(q) && k >= 2
    ensures |incoming| == |q|
    ensures forall t :: 0 <= t < |q| ==> incoming[t] == map f: int | 0 <= f < |q| :: q[f][t]
  {
    var p := FromDivisions([|q|], k, false);
    Spans(p, q, 0);
    if p.Rounds() == 0 {
      // the single block's queue to itself is swapped into its incoming side
      assert |q| == 1;
      incoming := [map[0 := q[0][0]]];
      return;
    }
    var sent := RunFirst(p, q);
    for r := 1 to p.Rounds()
      invariant SentInRound(p, q, r - 1, sent)
    {
      sent := RunIntermediate(p, q, r, sent);
    }
    incoming := RunFinal(p, q, sent);
  }

  method FinalBlock(p: Partners, ghost q: Queues, sent: seq<map<int, seq<Token>>>, a: nat)
    returns (queues: map<int, seq<int>>)
    requires Butterfly(p, q) && p.Rounds() > 0 && SentInRound(p, q, p.Rounds() - 1, sent) && a < |sent|
    requires p.Block(a) && a < |q|
    ensures queues == map f: int | 0 <= f < |q| :: q[f][a]
  {
    var ins := ReceiveAll(p, q, p.Rounds(), a, sent);
    queues := FinalRound(ins, InFrames(p, q, p.Rounds(), a));
    Delivered(p, q, a);
  }

  method RunFinal(p: Partners, ghost q: Queues, sent: seq<map<int, seq<Token>>>)
    returns (incoming: seq<map<int, seq<int>>>)
    requires Butterfly(p, q) && p.Rounds() > 0 && SentInRound(p, q, p.Rounds() - 1, sent)
    ensures |incoming| == |q|
    ensures forall t :: 0 <= t < |q| ==> incoming[t] == map f: int | 0 <= f < |q| :: q[f][t]
  {
    Spans(p, q, 0);
    incoming := [];
    for a := 0 to |sent|
      invariant |incoming| == a
      invariant forall t :: 0 <= t < a ==> incoming[t] == map f: int | 0 <= f < |q| :: q[f][t]
    {
      var queues := FinalBlock(p, q, sent, a);
      incoming := incoming + [queues];
    }
  }
}
