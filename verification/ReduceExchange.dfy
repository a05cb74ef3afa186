/** reduce over the exchange: each round of a pattern is followed by a counting round of messages in which every
    active block sends one queue to each block of its outgoing link. */
module ReduceExchange {
  import opened Coordinates
  import opened Counting
  import opened Groups
  import opened Queues
  import opened Schedules
  import opened ExchangeProtocol
  import opened FrameProtocol
  import FrameSafety
  import ExchangeSafety

  /** Round r of the pattern is followed by exchange round first + r. */
  ghost predicate IsRound(c: Config, first: nat, kind: Kind, p: Partners, r: nat)
    requires p.Valid() && r < TotalRounds(kind, p)
  {
    && !c.remote(first + r) && c.blocks == Volume(p.divs)
    && forall a, b :: p.Block(a) && p.Block(b) ==> (c.edges(first + r)(a, b) <==> Sends(kind, p, r, a, b))
  }

  ghost predicate IsReduction(c: Config, first: nat, kind: Kind, p: Partners) {
    p.Valid() && forall r :: 0 <= r < TotalRounds(kind, p) ==> IsRound(c, first, kind, p, r)
  }

  /** The count a process waits for is the one `reduce` sets. */
  lemma ExpectedCount(c: Config, first: nat, kind: Kind, p: Partners, r: nat, q: nat)
    requires p.Valid() && r < TotalRounds(kind, p) && ValidConfig(c) && IsRound(c, first, kind, p, r)
    ensures c.expected(q, first + r) == |SentTo(kind, p, r, c.locals(q))|
  {
    var edges, sent := EdgesInto(c.edges(first + r), c.blocks, c.locals(q)), SentTo(kind, p, r, c.locals(q));
    forall a, b | 0 <= a < c.blocks && b in c.locals(q) ensures c.edges(first + r)(a, b) <==> Edges(kind, p, r)(a, b) {
      assert c.owner(b) == q;
    }
    assert edges == sent;
  }

  // ---------- when a round began ----------

  ghost predicate BeginsWith(c: Config, P: Process, Q: Process, q: nat, queues: multiset<Rec>) {
    !P.active && Q.rounds == P.rounds + 1 && Q.posted == P.posted + [queues] && MayPost(c, q, P.rounds, queues)
  }

  lemma OneStep(c: Config, max: nat, w: Wire, v: Wire, q: nat)
    requires max > 0 && WireFollows(c, max, w, v) && q < |w.procs|
    ensures |v.procs| == |w.procs|
    ensures (v.procs[q].rounds == w.procs[q].rounds && v.procs[q].posted == w.procs[q].posted)
         || exists queues :: BeginsWith(c, w.procs[q], v.procs[q], q, queues)
  {
    var p: nat, a :| CanAct(c, w, p, a) && v == WireAfter(w, p, a, max);
    if p == q && a.BeginRound? {
      assert BeginsWith(c, w.procs[q], v.procs[q], q, a.queues);
    }
  }

  lemma {:induction false} PostedPerRound(c: Config, max: nat, states: seq<Wire>, i: nat, q: nat)
    requires IsFrameRun(c, max, states) && i < |states| && q < |states[0].procs|
    ensures |states[i].procs| == |states[0].procs| && |states[i].procs[q].posted| == states[i].procs[q].rounds
  {
    if i > 0 {
      PostedPerRound(c, max, states, i - 1, q);
      OneStep(c, max, states[i - 1], states[i], q);
    }
  }

  /** Process q began round e in going to state j, and posted then what it has posted in that round. */
  ghost predicate BeganAt(c: Config, states: seq<Wire>, i: nat, q: nat, e: nat, j: nat) {
    && 0 < j <= i < |states| && q < |states[j - 1].procs| && q < |states[j].procs| && q < |states[i].procs|
    && states[j - 1].procs[q].rounds == e && |states[i].procs[q].posted| > e
    && BeginsWith(c, states[j - 1].procs[q], states[j].procs[q], q, states[i].procs[q].posted[e])
    && |states[j].procs[q].posted| == e + 1
  }

  lemma {:induction false} WhenBegun(c: Config, max: nat, states: seq<Wire>, i: nat, q: nat, e: nat) returns (j: nat)
    requires IsFrameRun(c, max, states) && i < |states| && q < |states[0].procs|
    requires q < |states[i].procs| && states[i].procs[q].rounds > e
    ensures BeganAt(c, states, i, q, e, j)
  {
    PostedPerRound(c, max, states, i, q);
    assert i == 0 ==> Idle(states[i].procs[q]);
    if i > 0 {
      PostedPerRound(c, max, states, i - 1, q);
      OneStep(c, max, states[i - 1], states[i], q);
      if states[i - 1].procs[q].rounds > e {
        j := WhenBegun(c, max, states, i - 1, q, e);
        assert states[i].procs[q].posted[e] == states[i - 1].procs[q].posted[e];
      } else {
        j := i;
      }
    }
  }

  // ---------- what a round delivers ----------

  ghost predicate From(held: multiset<Rec>, a: int, b: int, x: Rec) {
    x in held && x.from == a && x.to == b
  }

  /** Block b has one queue from each of the senders and no other, as the sender's process posted it. */
  ghost predicate Delivered(c: Config, w: Wire, e: nat, held: multiset<Rec>, b: int, senders: seq<int>) {
    && (forall a :: a in senders ==> exists x :: From(held, a, b, x))
    && (forall a, x, y :: From(held, a, b, x) && From(held, a, b, y) ==> x == y)
    && (forall x: Rec :: x in held && x.to == b ==>
          x.from in senders && held[x] == 1 && FrameSafety.PostedBy(w, c.owner(x.from), e, x) == 1)
  }

  lemma HeldWasPosted(c: Config, max: nat, states: seq<Wire>, i: nat, q: nat, e: nat, x: Rec)
    requires IsFrameRun(c, max, states) && i < |states| && q < |states[i].procs| && !c.remote(e)
    requires !states[i].procs[q].active && states[i].procs[q].rounds == e + 1
    requires x in QueuesIn(states[i].procs[q].incoming, e)
    ensures FrameSafety.PostedBy(states[i], c.owner(x.from), e, x) == QueuesIn(states[i].procs[q].incoming, e)[x] == 1
    ensures IsEdge(c, e, x.from, x.to)
  {
    FrameSafety.RoundComplete(c, max, states, i, q, e);
    var s := c.owner(x.from);
    PostedPerRound(c, max, states, i, s);
    var j := WhenBegun(c, max, states, i, s, e);
  }

  lemma SenderIsHeld(c: Config, max: nat, states: seq<Wire>, i: nat, q: nat, e: nat, a: int, b: int)
    requires IsFrameRun(c, max, states) && i < |states| && q < |states[i].procs| && !c.remote(e)
    requires !states[i].procs[q].active && states[i].procs[q].rounds == e + 1
    requires IsEdge(c, e, a, b) && c.owner(b) == q
    ensures exists x :: From(QueuesIn(states[i].procs[q].incoming, e), a, b, x)
  {
    var held := QueuesIn(states[i].procs[q].incoming, e);
    FrameSafety.OneQueuePerNeighbor(c, max, states, i, q, e, a, b);
    var x :| x in held && ExchangeSafety.SameEdge(x, x, a, b);
    assert From(held, a, b, x);
  }

  lemma HeldOnce(c: Config, max: nat, states: seq<Wire>, i: nat, q: nat, e: nat, a: int, b: int, x: Rec, y: Rec)
    requires IsFrameRun(c, max, states) && i < |states| && q < |states[i].procs| && !c.remote(e)
    requires !states[i].procs[q].active && states[i].procs[q].rounds == e + 1 && c.owner(b) == q
    requires From(QueuesIn(states[i].procs[q].incoming, e), a, b, x)
    requires From(QueuesIn(states[i].procs[q].incoming, e), a, b, y)
    ensures x == y
  {
    HeldWasPosted(c, max, states, i, q, e, x);
    FrameSafety.OneQueuePerNeighbor(c, max, states, i, q, e, a, b);
    assert ExchangeSafety.SameEdge(x, y, a, b);
  }

  /** The edges of the round into block b come from its incoming link. */
  lemma EdgeOfRound(c: Config, first: nat, kind: Kind, p: Partners, r: nat, a: int, b: int)
    requires p.Valid() && r < TotalRounds(kind, p) && IsRound(c, first, kind, p, r) && p.Block(b)
    ensures IsEdge(c, first + r, a, b) <==> a in IncomingIfActive(kind, p, r + 1, b)
  {
    SendersOf(kind, p, r, b);
    if p.Block(a) {
      assert Edges(kind, p, r)(a, b) <==> c.edges(first + r)(a, b);
    }
  }

  /** Once a process has left the exchange of round r, each of its blocks has exactly the queues that the blocks
      of its incoming link posted, one from each, and none if it is not active in round r + 1. */
  lemma RoundDelivers(c: Config, max: nat, states: seq<Wire>, i: nat, q: nat, first: nat, kind: Kind, p: Partners,
                      r: nat, b: int)
    requires p.Valid() && r < TotalRounds(kind, p) && IsFrameRun(c, max, states) && IsRound(c, first, kind, p, r)
    requires i < |states| && q < |states[i].procs| && b in c.locals(q)
    requires !states[i].procs[q].active && states[i].procs[q].rounds == first + r + 1
    ensures p.Block(b) && Delivered(c, states[i], first + r, QueuesIn(states[i].procs[q].incoming, first + r), b,
                                    IncomingIfActive(kind, p, r + 1, b))
  {
    assert c.owner(b) == q;
    var e := first + r;
    var held, senders := QueuesIn(states[i].procs[q].incoming, e), IncomingIfActive(kind, p, r + 1, b);
    forall a | a in senders ensures exists x :: From(held, a, b, x) {
      EdgeOfRound(c, first, kind, p, r, a, b);
      SenderIsHeld(c, max, states, i, q, e, a, b);
    }
    forall x: Rec | x in held && x.to == b
      ensures x.from in senders && held[x] == 1 && FrameSafety.PostedBy(states[i], c.owner(x.from), e, x) == 1
    {
      HeldWasPosted(c, max, states, i, q, e, x);
      EdgeOfRound(c, first, kind, p, r, x.from, b);
    }
    forall a, x, y | From(held, a, b, x) && From(held, a, b, y) ensures x == y {
      HeldOnce(c, max, states, i, q, e, a, b, x, y);
    }
  }

  // ---------- what a whole reduction delivers ----------

  /** Whose contributions the payload of a queue stands for. */
  type Contents = Rec -> multiset<int>

  ghost function QueueFrom(held: multiset<Rec>, a: int, b: int): Rec {
    if exists x :: From(held, a, b, x) then var x :| From(held, a, b, x); x else Rec(a, b, 0, [], [])
  }

  /** What the queues that block b has from a list of senders stand for. */
  ghost function Received(held: multiset<Rec>, b: int, content: Contents): int -> multiset<int> {
    a => content(QueueFrom(held, a, b))
  }

  /** What block b of process P stands for when round r begins: first itself, later what it was sent in the round
      before. */
  ghost function Holding(P: Process, first: nat, kind: Kind, p: Partners, content: Contents, r: nat, b: int):
      multiset<int>
    requires p.Valid() && p.Block(b) && r <= TotalRounds(kind, p)
  {
    if r == 0 then multiset{b}
    else Gather(Received(QueuesIn(P.incoming, first + r - 1), b, content), Schedules.Incoming(kind, p, r, b))
  }

  /** What is posted on entering the exchange of round r stands for what its block then holds. */
  ghost predicate PassesAt(states: seq<Wire>, first: nat, kind: Kind, p: Partners, content: Contents, j: nat, q: nat,
                           r: nat, x: Rec)
    requires p.Valid() && 0 < j < |states| && q < |states[j - 1].procs| && q < |states[j].procs|
  {
    var P, Q := states[j - 1].procs[q], states[j].procs[q];
    && P.rounds == first + r && Q.rounds == first + r + 1 && r < TotalRounds(kind, p)
    && |Q.posted| == first + r + 1 && x in Q.posted[first + r] && p.Block(x.from)
    ==>
      content(x) == Holding(P, first, kind, p, content, r, x.from)
  }

  /** Every active block passes on what it holds: what the callback of a reduction is for. */
  ghost predicate PassesOn(states: seq<Wire>, first: nat, kind: Kind, p: Partners, content: Contents)
    requires p.Valid()
  {
    forall j: nat, q: nat, r: nat, x: Rec ::
      0 < j < |states| && q < |states[j - 1].procs| && q < |states[j].procs| ==>
        PassesAt(states, first, kind, p, content, j, q, r, x)
  }

  /** A run of messages that makes up such a reduction. */
  ghost predicate IsReduceRun(c: Config, max: nat, states: seq<Wire>, first: nat, kind: Kind, p: Partners,
                              content: Contents) {
    IsFrameRun(c, max, states) && IsReduction(c, first, kind, p) && PassesOn(states, first, kind, p, content)
  }

  /** Block b of process q is active and about to begin round r. */
  ghost predicate Ready(c: Config, w: Wire, q: nat, first: nat, kind: Kind, p: Partners, r: nat, b: int)
    requires p.Valid()
  {
    && q < |w.procs| && b in c.locals(q) && p.Block(b) && r <= TotalRounds(kind, p) && Active(kind, p, r, b)
    && !w.procs[q].active && w.procs[q].rounds == first + r
  }

  /** The one queue from a to b, and when its process posted it. */
  lemma SentBefore(c: Config, max: nat, states: seq<Wire>, i: nat, q: nat, first: nat, kind: Kind, p: Partners,
                   content: Contents, r: nat, b: int, a: int) returns (j: nat, x: Rec)
    requires IsReduceRun(c, max, states, first, kind, p, content) && i < |states| && r < TotalRounds(kind, p)
    requires Ready(c, states[i], q, first, kind, p, r + 1, b) && a in Schedules.Incoming(kind, p, r + 1, b)
    ensures x == QueueFrom(QueuesIn(states[i].procs[q].incoming, first + r), a, b) && x.from == a
    ensures BeganAt(c, states, i, c.owner(a), first + r, j) && x in states[i].procs[c.owner(a)].posted[first + r]
  {
    var e, o := first + r, c.owner(a);
    var held := QueuesIn(states[i].procs[q].incoming, e);
    assert IsRound(c, first, kind, p, r);
    RoundDelivers(c, max, states, i, q, first, kind, p, r, b);
    assert a in IncomingIfActive(kind, p, r + 1, b);
    var y :| From(held, a, b, y);
    x := QueueFrom(held, a, b);
    assert FrameSafety.PostedBy(states[i], o, e, x) == 1;
    PostedPerRound(c, max, states, i, o);
    j := WhenBegun(c, max, states, i, o, e);
  }

  /** The sender was active, and ready to begin the round before. */
  lemma SenderReady(c: Config, max: nat, states: seq<Wire>, i: nat, q: nat, first: nat, kind: Kind, p: Partners,
                    content: Contents, r: nat, b: int, a: int, j: nat)
    requires IsReduceRun(c, max, states, first, kind, p, content) && i < |states| && r < TotalRounds(kind, p)
    requires Ready(c, states[i], q, first, kind, p, r + 1, b) && a in Schedules.Incoming(kind, p, r + 1, b)
    requires BeganAt(c, states, i, c.owner(a), first + r, j)
    ensures Ready(c, states[j - 1], c.owner(a), first, kind, p, r, a)
  {
    IncomingDistinct(kind, p, r + 1, b);
    Duality(kind, p, r, a, b);
    assert IsRound(c, first, kind, p, r);
    assert 0 <= a < c.blocks;
  }

  /** The queue from a stands for what the pattern says a holds in round r. */
  ghost predicate PartnerHeld(held: multiset<Rec>, kind: Kind, p: Partners, content: Contents, r: nat, b: int, a: int)
    requires p.Valid() && r <= TotalRounds(kind, p)
  {
    p.Block(a) && content(QueueFrom(held, a, b)) == Held(kind, p, r, a)
  }

  lemma PartnerReceived(held: multiset<Rec>, kind: Kind, p: Partners, content: Contents, r: nat, b: int, a: int)
    requires p.Valid() && r <= TotalRounds(kind, p) && PartnerHeld(held, kind, p, content, r, b, a)
    ensures Received(held, b, content)(a) == CollectIn(SourcesOf(kind, p), r)(a)
  {
  }

  lemma HeldIsGathered(kind: Kind, p: Partners, r: nat, b: int, list: seq<int>)
    requires p.Valid() && p.Block(b) && 0 < r <= TotalRounds(kind, p) && list == Schedules.Incoming(kind, p, r, b)
    ensures Held(kind, p, r, b) == Gather(CollectIn(SourcesOf(kind, p), r - 1), list)
  {
    CollectStep(SourcesOf(kind, p), r, b);
  }

  lemma {:induction false} GatherPartners(held: multiset<Rec>, kind: Kind, p: Partners, content: Contents, r: nat,
                                          b: int, list: seq<int>)
    requires p.Valid() && r <= TotalRounds(kind, p)
    requires forall k :: 0 <= k < |list| ==> PartnerHeld(held, kind, p, content, r, b, list[k])
    ensures Gather(Received(held, b, content), list) == Gather(CollectIn(SourcesOf(kind, p), r), list)
  {
    var received, before := Received(held, b, content), CollectIn(SourcesOf(kind, p), r);
    forall k | 0 <= k < |list| ensures received(list[k]) == before(list[k]) {
      PartnerReceived(held, kind, p, content, r, b, list[k]);
    }
    GatherSame(received, before, list);
  }

  /** The block holds what the pattern says. */
  ghost predicate HoldsAsSaid(P: Process, first: nat, kind: Kind, p: Partners, content: Contents, r: nat, b: int)
    requires p.Valid() && p.Block(b) && r <= TotalRounds(kind, p)
  {
    Holding(P, first, kind, p, content, r, b) == Held(kind, p, r, b)
  }

  lemma HoldingFirst(P: Process, first: nat, kind: Kind, p: Partners, content: Contents, b: int)
    requires p.Valid() && p.Block(b)
    ensures HoldsAsSaid(P, first, kind, p, content, 0, b)
  {
  }

  lemma {:induction false} HoldingNext(P: Process, first: nat, kind: Kind, p: Partners, content: Contents, r: nat,
                                       b: int, list: seq<int>)
    requires p.Valid() && p.Block(b) && r < TotalRounds(kind, p) && list == Schedules.Incoming(kind, p, r + 1, b)
    requires forall k :: 0 <= k < |list| ==>
               PartnerHeld(QueuesIn(P.incoming, first + r), kind, p, content, r, b, list[k])
    ensures HoldsAsSaid(P, first, kind, p, content, r + 1, b)
  {
    GatherPartners(QueuesIn(P.incoming, first + r), kind, p, content, r, b, list);
    HeldIsGathered(kind, p, r + 1, b, list);
  }

  lemma {:induction false} PartnerHolds(c: Config, max: nat, states: seq<Wire>, i: nat, q: nat, first: nat, kind: Kind,
                                        p: Partners, content: Contents, r: nat, b: int, a: int)
    requires IsReduceRun(c, max, states, first, kind, p, content) && i < |states| && r < TotalRounds(kind, p)
    requires Ready(c, states[i], q, first, kind, p, r + 1, b) && a in Schedules.Incoming(kind, p, r + 1, b)
    ensures PartnerHeld(QueuesIn(states[i].procs[q].incoming, first + r), kind, p, content, r, b, a)
    decreases 4 * r + 1
  {
    var o := c.owner(a);
    var j, x := SentBefore(c, max, states, i, q, first, kind, p, content, r, b, a);
    SenderReady(c, max, states, i, q, first, kind, p, content, r, b, a, j);
    assert PassesAt(states, first, kind, p, content, j, o, r, x);
    ReduceHolds(c, max, states, j - 1, o, first, kind, p, content, r, a);
    assert HoldsAsSaid(states[j - 1].procs[o], first, kind, p, content, r, a);
  }

  lemma {:induction false} PartnersHold(c: Config, max: nat, states: seq<Wire>, i: nat, q: nat, first: nat, kind: Kind,
                                        p: Partners, content: Contents, r: nat, b: int, list: seq<int>)
    requires IsReduceRun(c, max, states, first, kind, p, content) && i < |states| && r < TotalRounds(kind, p)
    requires Ready(c, states[i], q, first, kind, p, r + 1, b) && list == Schedules.Incoming(kind, p, r + 1, b)
    ensures forall k :: 0 <= k < |list| ==>
              PartnerHeld(QueuesIn(states[i].procs[q].incoming, first + r), kind, p, content, r, b, list[k])
    decreases 4 * r + 2
  {
    forall k | 0 <= k < |list|
      ensures PartnerHeld(QueuesIn(states[i].procs[q].incoming, first + r), kind, p, content, r, b, list[k])
    {
      PartnerHolds(c, max, states, i, q, first, kind, p, content, r, b, list[k]);
    }
  }

  lemma {:induction false} NextHolds(c: Config, max: nat, states: seq<Wire>, i: nat, q: nat, first: nat, kind: Kind,
                                     p: Partners, content: Contents, r: nat, b: int, P: Process)
    requires IsReduceRun(c, max, states, first, kind, p, content) && i < |states| && r < TotalRounds(kind, p)
    requires Ready(c, states[i], q, first, kind, p, r + 1, b) && P == states[i].procs[q]
    ensures HoldsAsSaid(P, first, kind, p, content, r + 1, b)
    decreases 4 * r + 3
  {
    var list := Schedules.Incoming(kind, p, r + 1, b);
    PartnersHold(c, max, states, i, q, first, kind, p, content, r, b, list);
    HoldingNext(P, first, kind, p, content, r, b, list);
  }

  /** On every run of messages, whatever the interleaving: an active block about to begin round r holds just what
      the pattern says. */
  lemma {:induction false} ReduceHolds(c: Config, max: nat, states: seq<Wire>, i: nat, q: nat, first: nat, kind: Kind,
                                       p: Partners, content: Contents, r: nat, b: int)
    requires IsReduceRun(c, max, states, first, kind, p, content) && i < |states|
    requires Ready(c, states[i], q, first, kind, p, r, b)
    ensures HoldsAsSaid(states[i].procs[q], first, kind, p, content, r, b)
    decreases 4 * r
  {
    var P := states[i].procs[q];
    if r == 0 {
      HoldingFirst(P, first, kind, p, content, b);
    } else {
      var s: nat := r - 1;
      NextHolds(c, max, states, i, q, first, kind, p, content, s, b, P);
    }
  }

  /** At the end each block that is active has every contribution once, or that of block 0 when it was broadcast. */
  lemma ReduceTotal(c: Config, max: nat, states: seq<Wire>, i: nat, q: nat, first: nat, kind: Kind, p: Partners,
                    content: Contents, b: int, a: int)
    requires IsReduceRun(c, max, states, first, kind, p, content) && i < |states|
    requires Ready(c, states[i], q, first, kind, p, TotalRounds(kind, p), b)
    ensures Holding(states[i].procs[q], first, kind, p, content, TotalRounds(kind, p), b)[a]
         == One(if kind.Broadcast? then a == 0 else p.Block(a))
  {
    ReduceHolds(c, max, states, i, q, first, kind, p, content, TotalRounds(kind, p), b);
    match kind
    case Merge => MergeTotal(p, b, a);
    case Swap => SwapTotal(p, b, a);
    case Broadcast => BroadcastTotal(p, p.Rounds(), b);
    case AllReduce => AllReduceTotal(p, 2 * p.Rounds(), b, a);
  }
}
