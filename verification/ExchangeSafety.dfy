/** What every step of the exchange rounds keeps, a queue being one message: when a process leaves a round,
    it holds exactly the queues that were sent to it in that round; no queue of a round that was left is
    still on its way; and queues of a faster sender wait under their own round. FrameSafety carries this
    over to queues of any number of messages and to whole runs. */
module ExchangeSafety {
  import opened Queues
  import opened Schedules
  import opened Counting
  import opened ExchangeProtocol
  import opened MasterBlocks

  // ---------- the invariant ----------

  /** Barriers among the first n rounds. */
  ghost function Barriers(c: Config, n: nat): nat {
    if n == 0 then 0 else Barriers(c, n - 1) + if c.remote(n - 1) then 1 else 0
  }

  /** The rounds a process has sent everything for. */
  function Passed(P: Node): int {
    if P.active && !P.barrier then P.rounds - 1 else P.rounds
  }

  ghost predicate NodeInv(c: Config, P: Node, p: nat) {
    && |P.posted| == P.rounds
    && (P.active ==> P.rounds > 0)
    && (!P.active ==> P.outgoing == multiset{} && P.sends == multiset{} && !P.barrier)
    && (P.barrier ==> P.outgoing == multiset{} && P.sends == multiset{} && c.remote(P.rounds - 1))
    && P.entered == Barriers(c, Passed(P))
    && (P.rounds > 0 ==> P.outgoing <= P.posted[P.rounds - 1])
    && (forall e :: 0 <= e < P.rounds ==> MayPost(c, p, e, P.posted[e]))
  }

  /** Nothing that arrived for the current round or a later one has been dropped, and nothing is kept of the rounds
      before it. */
  ghost predicate IncomingInv(P: Node, p: nat) {
    && (forall e: nat :: e in P.incoming ==> e >= P.rounds - 1)
    && (forall e: nat :: P.rounds - 1 <= e ==>
        QueuesIn(P.incoming, e) == P.arrived(e) && ReceivedIn(P.incoming, e) == |P.arrived(e)|)
    && (forall e: nat, r :: r in P.arrived(e) ==> r.proc == p)
  }

  ghost function PostedCount(s: Net, q: nat, e: nat, r: Rec): nat {
    if q < |s.nodes| && e < |s.nodes[q].posted| then s.nodes[q].posted[e][r] else 0
  }

  ghost function UnsentCount(s: Net, q: nat, e: nat, r: Rec): nat {
    if q < |s.nodes| && s.nodes[q].rounds == e + 1 then s.nodes[q].outgoing[r] else 0
  }

  ghost function ArrivedCount(s: Net, p: nat, e: nat, r: Rec): nat {
    if p < |s.nodes| then s.nodes[p].arrived(e)[r] else 0
  }

  /** Every queue posted in a round is still unsent, on its way, or has arrived. */
  ghost predicate Kept(c: Config, s: Net, e: nat, r: Rec) {
    PostedCount(s, c.owner(r.from), e, r)
      == ArrivedCount(s, r.proc, e, r) + s.packets[Parcel(e, r)] + UnsentCount(s, c.owner(r.from), e, r)
  }

  ghost predicate LedgerInv(c: Config, s: Net) {
    forall e: nat, r :: Kept(c, s, e, r)
  }

  /** In a remote round an unmatched message keeps its sender's request pending. */
  ghost predicate Pending(c: Config, s: Net, e: nat, r: Rec) {
    var q := c.owner(r.from);
    c.remote(e) && s.packets[Parcel(e, r)] > 0 ==>
      q < |s.nodes| && s.nodes[q].rounds == e + 1 && s.packets[Parcel(e, r)] <= s.nodes[q].sends[r]
  }

  ghost predicate PendingInv(c: Config, s: Net) {
    forall e: nat, r :: Pending(c, s, e, r)
  }

  ghost predicate Left(P: Node, e: nat) {
    e < if P.active then P.rounds - 1 else P.rounds
  }

  /** Whether process q may send to process p in round e. */
  ghost predicate Reaches(c: Config, q: nat, p: nat, e: nat) {
    c.remote(e) || exists f, t :: IsEdge(c, e, f, t) && c.owner(f) == q && c.owner(t) == p
  }

  /** Nothing sent to p in round e is outstanding, and nothing more will be sent. */
  ghost predicate Settled(c: Config, s: Net, p: nat, e: nat) {
    && (forall q :: 0 <= q < |s.nodes| && Reaches(c, q, p, e) ==> s.nodes[q].rounds > e)
    && (forall r: Rec :: r.proc == p ==> NothingOut(c, s, e, r))
  }

  ghost predicate NothingOut(c: Config, s: Net, e: nat, r: Rec) {
    s.packets[Parcel(e, r)] == 0 && UnsentCount(s, c.owner(r.from), e, r) == 0
  }

  ghost predicate SettledInv(c: Config, s: Net) {
    forall p: nat, e: nat :: p < |s.nodes| && Left(s.nodes[p], e) ==> Settled(c, s, p, e)
  }

  ghost predicate NodesInv(c: Config, s: Net) {
    forall p :: 0 <= p < |s.nodes| ==> NodeInv(c, s.nodes[p], p) && IncomingInv(s.nodes[p], p)
  }

  ghost predicate ExchangeInv(c: Config, s: Net) {
    NodesInv(c, s) && LedgerInv(c, s) && PendingInv(c, s) && SettledInv(c, s)
  }

  lemma StartInv(c: Config, s: Net)
    requires Start(s)
    ensures ExchangeInv(c, s)
  {
    forall p | 0 <= p < |s.nodes| ensures NodeInv(c, s.nodes[p], p) && IncomingInv(s.nodes[p], p) {
      assert Fresh(s.nodes[p]);
    }
    forall e: nat, r ensures Kept(c, s, e, r) {
      if c.owner(r.from) < |s.nodes| { assert Fresh(s.nodes[c.owner(r.from)]); }
      if r.proc < |s.nodes| { assert Fresh(s.nodes[r.proc]); }
    }
    forall p: nat, e: nat | p < |s.nodes| ensures !Left(s.nodes[p], e) {
      assert Fresh(s.nodes[p]);
    }
  }

  // ---------- what one process keeps ----------

  lemma NodeInvBegin(c: Config, P: Node, p: nat, queues: multiset<Rec>)
    requires NodeInv(c, P, p) && !P.active && MayPost(c, p, P.rounds, queues)
    ensures NodeInv(c, NodeAfter(P, Begin(queues)), p)
  {
    var Q := NodeAfter(P, Begin(queues));
    forall e | 0 <= e < Q.rounds ensures MayPost(c, p, e, Q.posted[e]) {
      if e < P.rounds { assert MayPost(c, p, e, P.posted[e]); }
    }
  }

  /** A step that keeps the counters and only shrinks what is unsent. */
  lemma NodeInvSame(c: Config, P: Node, p: nat, Q: Node)
    requires NodeInv(c, P, p)
    requires Q.posted == P.posted && Q.rounds == P.rounds && Q.active && P.active && Q.barrier == P.barrier
        && Q.entered == P.entered
    requires Q.outgoing <= P.outgoing && (P.barrier ==> Q.outgoing == multiset{} && Q.sends == multiset{})
    ensures NodeInv(c, Q, p)
  {
  }

  lemma NodeInvBarrier(c: Config, s: Net, p: nat, m: Move)
    requires CanMove(c, s, p, m) && NodeInv(c, s.nodes[p], p) && (m.EnterBarrier? || m.LeaveRemote? || m.LeaveCounted?)
    ensures NodeInv(c, NodeAfter(s.nodes[p], m), p)
  {
  }

  lemma NodeInvStep(c: Config, s: Net, p: nat, m: Move)
    requires CanMove(c, s, p, m) && NodeInv(c, s.nodes[p], p)
    ensures NodeInv(c, NodeAfter(s.nodes[p], m), p)
  {
    match m
    case Begin(queues) => NodeInvBegin(c, s.nodes[p], p, queues);
    case EnterBarrier => NodeInvBarrier(c, s, p, m);
    case LeaveRemote => NodeInvBarrier(c, s, p, m);
    case LeaveCounted => NodeInvBarrier(c, s, p, m);
    case _ => NodeInvSame(c, s.nodes[p], p, NodeAfter(s.nodes[p], m));
  }

  lemma TakeKeepsIncoming(P: Node, p: nat, e: nat, r: Rec)
    requires IncomingInv(P, p) && r.proc == p && P.rounds - 1 <= e
    ensures IncomingInv(Take(P, e, r), p)
  {
    var Q := Take(P, e, r);
    forall x: nat | Q.rounds - 1 <= x
      ensures QueuesIn(Q.incoming, x) == Q.arrived(x) && ReceivedIn(Q.incoming, x) == |Q.arrived(x)|
    {
      assert QueuesIn(P.incoming, x) == P.arrived(x) && ReceivedIn(P.incoming, x) == |P.arrived(x)|;
    }
    forall x: nat, y | y in Q.arrived(x) ensures y.proc == p {
      assert y in P.arrived(x) || y == r;
    }
  }

  lemma BeginKeepsIncoming(P: Node, p: nat, queues: multiset<Rec>)
    requires IncomingInv(P, p)
    ensures IncomingInv(NodeAfter(P, Begin(queues)), p)
  {
    var Q := NodeAfter(P, Begin(queues));
    forall x: nat | Q.rounds - 1 <= x
      ensures QueuesIn(Q.incoming, x) == Q.arrived(x) && ReceivedIn(Q.incoming, x) == |Q.arrived(x)|
    {
      assert QueuesIn(P.incoming, x) == P.arrived(x) && ReceivedIn(P.incoming, x) == |P.arrived(x)|;
    }
  }

  lemma SameIncoming(P: Node, p: nat, Q: Node)
    requires IncomingInv(P, p) && Q.incoming == P.incoming && Q.arrived == P.arrived && Q.rounds == P.rounds
    ensures IncomingInv(Q, p)
  {
    forall x: nat | Q.rounds - 1 <= x
      ensures QueuesIn(Q.incoming, x) == Q.arrived(x) && ReceivedIn(Q.incoming, x) == |Q.arrived(x)|
    {
      assert QueuesIn(P.incoming, x) == P.arrived(x);
    }
  }

  lemma IncomingInvStep(c: Config, s: Net, p: nat, m: Move)
    requires CanMove(c, s, p, m) && (s.nodes[p].active ==> s.nodes[p].rounds > 0) && IncomingInv(s.nodes[p], p)
    requires m.Receive? ==> s.nodes[p].rounds - 1 <= m.parcel.round
    ensures IncomingInv(NodeAfter(s.nodes[p], m), p)
  {
    var P := s.nodes[p];
    match m
    case Begin(queues) => BeginKeepsIncoming(P, p, queues);
    case SendSame(r) =>
      SameIncoming(P, p, P.(outgoing := P.outgoing - multiset{r}));
      TakeKeepsIncoming(P.(outgoing := P.outgoing - multiset{r}), p, P.rounds - 1, r);
    case Receive(k) => TakeKeepsIncoming(P, p, k.round, k.rec);
    case _ => SameIncoming(P, p, NodeAfter(P, m));
  }

  /** The assertion on receipt: no queue of a round that was left is still around. */
  lemma RoundNotPast(c: Config, s: Net, p: nat, k: Parcel)
    requires SettledInv(c, s) && CanMove(c, s, p, Receive(k))
    ensures k.round >= s.nodes[p].rounds - 1
  {
    assert Left(s.nodes[p], k.round) ==> Settled(c, s, p, k.round);
    assert Settled(c, s, p, k.round) ==> NothingOut(c, s, k.round, k.rec);
  }

  lemma NodesInvStep(c: Config, s: Net, p: nat, m: Move)
    requires NodesInv(c, s) && SettledInv(c, s) && CanMove(c, s, p, m)
    ensures NodesInv(c, Moved(s, p, m))
  {
    NodeInvStep(c, s, p, m);
    if m.Receive? { RoundNotPast(c, s, p, m.parcel); }
    IncomingInvStep(c, s, p, m);
    OneNodeChanges(c, s, p, NodeAfter(s.nodes[p], m), Moved(s, p, m));
  }

  lemma OneNodeChanges(c: Config, s: Net, p: nat, Q: Node, t: Net)
    requires NodesInv(c, s) && p < |s.nodes| && t.nodes == s.nodes[p := Q]
    requires NodeInv(c, Q, p) && IncomingInv(Q, p)
    ensures NodesInv(c, t)
  {
  }

  // ---------- the ledger ----------

  lemma OwnQueues(c: Config, P: Node, p: nat, r: Rec)
    requires NodeInv(c, P, p) && r in P.outgoing && P.rounds > 0
    ensures c.owner(r.from) == p && r in P.posted[P.rounds - 1] && MayPost(c, p, P.rounds - 1, P.posted[P.rounds - 1])
  {
  }

  lemma KeptByBegin(c: Config, s: Net, p: nat, queues: multiset<Rec>, e: nat, r: Rec)
    requires CanMove(c, s, p, Begin(queues)) && NodeInv(c, s.nodes[p], p) && Kept(c, s, e, r)
    ensures Kept(c, Moved(s, p, Begin(queues)), e, r)
  {
  }

  lemma TakeArrived(P: Node, x: nat, y: Rec, e: nat, r: Rec)
    ensures Take(P, x, y).arrived(e)[r] == P.arrived(e)[r] + One(e == x && r == y)
  {
  }

  /** What placing a queue of its own changes at the process. */
  lemma SameNodes(s: Net, p: nat, x: Rec, e: nat, r: Rec, t: Net)
    requires p < |s.nodes| && x in s.nodes[p].outgoing && s.nodes[p].rounds > 0 && t == Moved(s, p, SendSame(x))
    ensures t.packets == s.packets && |t.nodes| == |s.nodes|
    ensures forall q :: 0 <= q < |s.nodes| && q != p ==> t.nodes[q] == s.nodes[q]
    ensures var P, Q, n := s.nodes[p], t.nodes[p], One(e == s.nodes[p].rounds - 1 && r == x);
            && Q.rounds == P.rounds && Q.posted == P.posted
            && Q.arrived(e)[r] == P.arrived(e)[r] + n && Q.outgoing[r] == P.outgoing[r] - One(r == x)
  {
    var P := s.nodes[p];
    TakeArrived(P.(outgoing := P.outgoing - multiset{x}), P.rounds - 1, x, e, r);
  }

  lemma KeptBySendSame(c: Config, s: Net, p: nat, x: Rec, e: nat, r: Rec)
    requires p < |s.nodes| && x in s.nodes[p].outgoing && x.proc == p && s.nodes[p].rounds > 0
        && c.owner(x.from) == p && Kept(c, s, e, r)
    ensures Kept(c, Moved(s, p, SendSame(x)), e, r)
  {
    var t, n := Moved(s, p, SendSame(x)), One(e == s.nodes[p].rounds - 1 && r == x);
    SameNodes(s, p, x, e, r, t);
    assert UnsentCount(t, c.owner(r.from), e, r) == UnsentCount(s, c.owner(r.from), e, r) - n;
    assert ArrivedCount(t, r.proc, e, r) == ArrivedCount(s, r.proc, e, r) + n;
  }

  lemma KeptBySendOther(c: Config, s: Net, p: nat, x: Rec, e: nat, r: Rec)
    requires p < |s.nodes| && x in s.nodes[p].outgoing && s.nodes[p].rounds > 0 && c.owner(x.from) == p
        && Kept(c, s, e, r)
    ensures Kept(c, Moved(s, p, SendOther(x)), e, r)
  {
    var t, n := Moved(s, p, SendOther(x)), One(r == x && e == s.nodes[p].rounds - 1);
    assert PostedCount(t, c.owner(r.from), e, r) == PostedCount(s, c.owner(r.from), e, r);
    assert UnsentCount(t, c.owner(r.from), e, r) == UnsentCount(s, c.owner(r.from), e, r) - n;
    assert ArrivedCount(t, r.proc, e, r) == ArrivedCount(s, r.proc, e, r);
    assert t.packets[Parcel(e, r)] == s.packets[Parcel(e, r)] + n;
  }

  lemma KeptByReceive(c: Config, s: Net, p: nat, k: Parcel, e: nat, r: Rec)
    requires p < |s.nodes| && k in s.packets && k.rec.proc == p && Kept(c, s, e, r)
    ensures Kept(c, Moved(s, p, Receive(k)), e, r)
  {
    var t, n := Moved(s, p, Receive(k)), One(Parcel(e, r) == k);
    TakeArrived(s.nodes[p], k.round, k.rec, e, r);
    assert ArrivedCount(t, r.proc, e, r) == ArrivedCount(s, r.proc, e, r) + n;
    assert t.packets[Parcel(e, r)] == s.packets[Parcel(e, r)] - n;
  }

  lemma KeptByQuietMove(c: Config, s: Net, p: nat, m: Move, e: nat, r: Rec)
    requires CanMove(c, s, p, m) && Kept(c, s, e, r) && !m.Begin? && !m.SendSame? && !m.SendOther? && !m.Receive?
    ensures Kept(c, Moved(s, p, m), e, r)
  {
  }

  lemma KeptStep(c: Config, s: Net, p: nat, m: Move, e: nat, r: Rec)
    requires CanMove(c, s, p, m) && NodeInv(c, s.nodes[p], p) && Kept(c, s, e, r)
    ensures Kept(c, Moved(s, p, m), e, r)
  {
    match m
    case Begin(queues) => KeptByBegin(c, s, p, queues, e, r);
    case SendSame(x) =>
      OwnQueues(c, s.nodes[p], p, x);
      KeptBySendSame(c, s, p, x, e, r);
    case SendOther(x) =>
      OwnQueues(c, s.nodes[p], p, x);
      KeptBySendOther(c, s, p, x, e, r);
    case Receive(k) => KeptByReceive(c, s, p, k, e, r);
    case _ => KeptByQuietMove(c, s, p, m, e, r);
  }

  // ---------- pending sends ----------

  lemma PendingBySendOther(c: Config, s: Net, p: nat, x: Rec, e: nat, r: Rec)
    requires CanMove(c, s, p, SendOther(x)) && NodeInv(c, s.nodes[p], p) && Pending(c, s, e, r)
    ensures Pending(c, Moved(s, p, SendOther(x)), e, r)
  {
    OwnQueues(c, s.nodes[p], p, x);
  }

  lemma PendingByComplete(c: Config, s: Net, p: nat, x: Rec, e: nat, r: Rec)
    requires CanMove(c, s, p, Complete(x)) && Pending(c, s, e, r)
    ensures Pending(c, Moved(s, p, Complete(x)), e, r)
  {
  }

  lemma PendingStep(c: Config, s: Net, p: nat, m: Move, e: nat, r: Rec)
    requires CanMove(c, s, p, m) && NodeInv(c, s.nodes[p], p) && Pending(c, s, e, r)
    ensures Pending(c, Moved(s, p, m), e, r)
  {
    match m
    case SendOther(x) => PendingBySendOther(c, s, p, x, e, r);
    case Complete(x) => PendingByComplete(c, s, p, x, e, r);
    case _ =>
  }

  // ---------- leaving a round ----------

  lemma {:induction false} BarriersGrow(c: Config, m: nat, n: nat)
    requires m <= n
    ensures Barriers(c, m) <= Barriers(c, n)
  {
    if m < n { BarriersGrow(c, m, n - 1); }
  }

  /** Having entered as many barriers as a process that entered the one of round e means having sent
      everything for round e. */
  lemma BarrierMeansPassed(c: Config, Q: Node, q: nat, e: nat)
    requires NodeInv(c, Q, q) && c.remote(e) && Q.entered >= Barriers(c, e + 1)
    ensures Passed(Q) >= e + 1
  {
    if Passed(Q) <= e {
      BarriersGrow(c, Passed(Q), e);
    }
  }

  lemma PassedIsQuiet(c: Config, s: Net, q: nat, e: nat, r: Rec)
    requires q < |s.nodes| && NodeInv(c, s.nodes[q], q) && c.owner(r.from) == q && Pending(c, s, e, r)
    requires c.remote(e) && Passed(s.nodes[q]) >= e + 1
    ensures NothingOut(c, s, e, r)
  {
  }

  lemma LeavingRemote(c: Config, s: Net, p: nat, e: nat)
    requires NodesInv(c, s) && PendingInv(c, s) && CanMove(c, s, p, LeaveRemote) && e == s.nodes[p].rounds - 1
    requires forall b :: c.owner(b) < |s.nodes|
    ensures Settled(c, s, p, e)
  {
    assert NodeInv(c, s.nodes[p], p);
    assert s.nodes[p].entered == Barriers(c, e + 1);
    forall q | 0 <= q < |s.nodes| ensures Passed(s.nodes[q]) >= e + 1 {
      assert NodeInv(c, s.nodes[q], q);
      BarrierMeansPassed(c, s.nodes[q], q, e);
    }
    forall r: Rec ensures NothingOut(c, s, e, r) {
      assert Pending(c, s, e, r);
      PassedIsQuiet(c, s, c.owner(r.from), e, r);
    }
  }

  // ---------- counting ----------

  ghost predicate OnePerEdge(queues: multiset<Rec>, into: set<(int, int)>) {
    && (forall r :: r in queues ==> queues[r] == 1 && (r.from, r.to) in into)
    && (forall r, r' :: r in queues && r' in queues && r.from == r'.from && r.to == r'.to ==> r == r')
  }

  ghost predicate Covers(queues: multiset<Rec>, x: (int, int)) {
    exists r :: r in queues && r.from == x.0 && r.to == x.1
  }

  /** As many queues as edges, at most one per edge: every edge is covered. */
  lemma {:induction false} EveryEdge(queues: multiset<Rec>, into: set<(int, int)>)
    requires OnePerEdge(queues, into)
    ensures |queues| <= |into|
    ensures |queues| == |into| ==> forall x :: x in into ==> Covers(queues, x)
    decreases |queues|
  {
    if queues == multiset{} {
      NoneLeft(into);
    } else {
      var r :| r in queues;
      var fewer, less := queues - multiset{r}, into - {(r.from, r.to)};
      EveryEdge(fewer, less);
      forall x | x in into && (x in less ==> Covers(fewer, x)) ensures Covers(queues, x) {
        if x in less {
          var y :| y in fewer && y.from == x.0 && y.to == x.1;
          assert y in queues;
        }
      }
    }
  }

  lemma NoneLeft<T>(s: set<T>)
    ensures 0 == |s| ==> forall x :: x !in s
  {
  }

  /** What has arrived at p in a counting round is one queue per edge into p. */
  lemma ArrivedOnePerEdge(c: Config, s: Net, p: nat, e: nat)
    requires ValidConfig(c) && NodesInv(c, s) && LedgerInv(c, s) && p < |s.nodes| && !c.remote(e)
    ensures OnePerEdge(s.nodes[p].arrived(e), EdgesInto(c.edges(e), c.blocks, c.locals(p)))
  {
    var A := s.nodes[p].arrived(e);
    forall r | r in A
      ensures A[r] == 1 && (r.from, r.to) in EdgesInto(c.edges(e), c.blocks, c.locals(p))
      ensures c.owner(r.from) < |s.nodes| && e < |s.nodes[c.owner(r.from)].posted|
          && r in s.nodes[c.owner(r.from)].posted[e]
      ensures MayPost(c, c.owner(r.from), e, s.nodes[c.owner(r.from)].posted[e])
    {
      ArrivedWasPosted(c, s, p, e, r);
    }
  }

  lemma ArrivedWasPosted(c: Config, s: Net, p: nat, e: nat, r: Rec)
    requires ValidConfig(c) && NodesInv(c, s) && Kept(c, s, e, r) && p < |s.nodes| && !c.remote(e)
        && r in s.nodes[p].arrived(e)
    ensures s.nodes[p].arrived(e)[r] == 1 && IsEdge(c, e, r.from, r.to) && c.owner(r.to) == p && r.to in c.locals(p)
    ensures var q := c.owner(r.from);
            q < |s.nodes| && e < |s.nodes[q].posted| && r in s.nodes[q].posted[e]
                && MayPost(c, q, e, s.nodes[q].posted[e])
  {
    assert IncomingInv(s.nodes[p], p);
    var q := c.owner(r.from);
    assert PostedCount(s, q, e, r) >= ArrivedCount(s, p, e, r) >= 1;
    assert NodeInv(c, s.nodes[q], q);
    assert MayPost(c, q, e, s.nodes[q].posted[e]);
  }

  lemma EdgesArrived(c: Config, s: Net, p: nat, e: nat)
    requires ValidConfig(c) && NodesInv(c, s) && LedgerInv(c, s) && CanMove(c, s, p, LeaveCounted)
        && e == s.nodes[p].rounds - 1
    ensures forall f, t :: IsEdge(c, e, f, t) && c.owner(t) == p ==> EdgeArrived(c, s, p, e, f, t)
  {
    assert IncomingInv(s.nodes[p], p);
    var into, A := EdgesInto(c.edges(e), c.blocks, c.locals(p)), s.nodes[p].arrived(e);
    ArrivedOnePerEdge(c, s, p, e);
    EveryEdge(A, into);
    forall f, t | IsEdge(c, e, f, t) && c.owner(t) == p ensures EdgeArrived(c, s, p, e, f, t) {
      assert (f, t) in into;
      assert Covers(A, (f, t));
      var r :| r in A && r.from == f && r.to == t;
      assert Kept(c, s, e, r);
      ArrivedWasPosted(c, s, p, e, r);
    }
  }

  lemma SendersHaveBegun(c: Config, s: Net, p: nat, e: nat, q: nat)
    requires NodesInv(c, s) && p < |s.nodes| && q < |s.nodes| && !c.remote(e) && Reaches(c, q, p, e)
    requires forall f, t :: IsEdge(c, e, f, t) && c.owner(t) == p ==> EdgeArrived(c, s, p, e, f, t)
    ensures s.nodes[q].rounds > e
  {
    var f, t :| IsEdge(c, e, f, t) && c.owner(f) == q && c.owner(t) == p;
    assert EdgeArrived(c, s, p, e, f, t);
    assert NodeInv(c, s.nodes[q], q);
  }

  lemma LeavingCounted(c: Config, s: Net, p: nat, e: nat)
    requires ValidConfig(c) && NodesInv(c, s) && LedgerInv(c, s) && CanMove(c, s, p, LeaveCounted)
        && e == s.nodes[p].rounds - 1
    requires forall b :: c.owner(b) < |s.nodes|
    ensures Settled(c, s, p, e)
  {
    EdgesArrived(c, s, p, e);
    forall q | 0 <= q < |s.nodes| && Reaches(c, q, p, e) ensures s.nodes[q].rounds > e {
      SendersHaveBegun(c, s, p, e, q);
    }
    forall r: Rec | r.proc == p ensures NothingOut(c, s, e, r) {
      assert Kept(c, s, e, r);
      AllArrived(c, s, p, e, r);
    }
  }

  ghost predicate EdgeArrived(c: Config, s: Net, p: nat, e: nat, f: int, t: int)
    requires p < |s.nodes|
  {
    exists r :: r in s.nodes[p].arrived(e) && r.from == f && r.to == t && PostedCount(s, c.owner(f), e, r) > 0
  }

  lemma AllArrived(c: Config, s: Net, p: nat, e: nat, r: Rec)
    requires NodesInv(c, s) && p < |s.nodes| && r.proc == p && !c.remote(e) && Kept(c, s, e, r)
    requires c.owner(r.from) < |s.nodes|
    requires forall f, t :: IsEdge(c, e, f, t) && c.owner(t) == p ==> EdgeArrived(c, s, p, e, f, t)
    ensures NothingOut(c, s, e, r)
  {
    var q := c.owner(r.from);
    assert NodeInv(c, s.nodes[q], q);
    if e < |s.nodes[q].posted| && r in s.nodes[q].posted[e] {
      assert MayPost(c, q, e, s.nodes[q].posted[e]);
      assert EdgeArrived(c, s, p, e, r.from, r.to);
      var x :| x in s.nodes[p].arrived(e) && x.from == r.from && x.to == r.to && PostedCount(s, q, e, x) > 0;
      assert x == r;
    }
  }

  // ---------- staying settled ----------

  lemma RoundsGrow(s: Net, p: nat, m: Move, q: nat)
    requires p < |s.nodes| && q < |s.nodes|
    ensures Moved(s, p, m).nodes[q].rounds >= s.nodes[q].rounds
  {
  }

  lemma PostsWhereItReaches(c: Config, b: nat, e: nat, queues: multiset<Rec>, r: Rec)
    requires MayPost(c, b, e, queues) && r in queues
    ensures Reaches(c, b, r.proc, e)
  {
    assert !c.remote(e) ==> IsEdge(c, e, r.from, r.to);
  }

  /** A process that starts round e posts nothing to a process that has settled round e. */
  lemma BeginKeepsQuiet(c: Config, s: Net, b: nat, queues: multiset<Rec>, p: nat, e: nat, r: Rec)
    requires CanMove(c, s, b, Begin(queues)) && NodeInv(c, s.nodes[b], b) && Settled(c, s, p, e) && r.proc == p
    ensures NothingOut(c, Moved(s, b, Begin(queues)), e, r)
  {
    assert NothingOut(c, s, e, r);
    if r in queues {
      PostsWhereItReaches(c, b, s.nodes[b].rounds, queues, r);
    }
  }

  lemma SendKeepsQuiet(c: Config, s: Net, b: nat, m: Move, e: nat, r: Rec)
    requires CanMove(c, s, b, m) && NodeInv(c, s.nodes[b], b) && (m.SendSame? || m.SendOther?) && NothingOut(c, s, e, r)
    ensures NothingOut(c, Moved(s, b, m), e, r)
  {
    OwnQueues(c, s.nodes[b], b, m.rec);
  }

  lemma OtherKeepsQuiet(c: Config, s: Net, b: nat, m: Move, e: nat, r: Rec)
    requires CanMove(c, s, b, m) && !m.Begin? && !m.SendSame? && !m.SendOther? && NothingOut(c, s, e, r)
    ensures NothingOut(c, Moved(s, b, m), e, r)
  {
  }

  lemma StaysSettled(c: Config, s: Net, b: nat, m: Move, p: nat, e: nat)
    requires CanMove(c, s, b, m) && NodeInv(c, s.nodes[b], b) && Settled(c, s, p, e)
    ensures Settled(c, Moved(s, b, m), p, e)
  {
    forall q | 0 <= q < |s.nodes| && Reaches(c, q, p, e) ensures Moved(s, b, m).nodes[q].rounds > e {
      RoundsGrow(s, b, m, q);
    }
    forall r: Rec | r.proc == p ensures NothingOut(c, Moved(s, b, m), e, r) {
      assert NothingOut(c, s, e, r);
      match m
      case Begin(queues) => BeginKeepsQuiet(c, s, b, queues, p, e, r);
      case SendSame(_) => SendKeepsQuiet(c, s, b, m, e, r);
      case SendOther(_) => SendKeepsQuiet(c, s, b, m, e, r);
      case _ => OtherKeepsQuiet(c, s, b, m, e, r);
    }
  }

  /** A round newly left is settled at that moment; the ones left before stay so. */
  lemma SettledStep(c: Config, s: Net, b: nat, m: Move, p: nat, e: nat)
    requires ValidConfig(c) && ExchangeInv(c, s) && CanMove(c, s, b, m) && p < |s.nodes|
    requires forall x :: c.owner(x) < |s.nodes|
    requires Left(Moved(s, b, m).nodes[p], e)
    ensures Settled(c, Moved(s, b, m), p, e)
  {
    assert NodeInv(c, s.nodes[b], b);
    if !Left(s.nodes[p], e) {
      assert b == p && e == s.nodes[p].rounds - 1;
      if m.LeaveRemote? {
        LeavingRemote(c, s, p, e);
      } else {
        LeavingCounted(c, s, p, e);
      }
    }
    StaysSettled(c, s, b, m, p, e);
  }

  // ---------- every run ----------

  lemma ExchangeStep(c: Config, s: Net, b: nat, m: Move)
    requires ValidConfig(c) && ExchangeInv(c, s) && CanMove(c, s, b, m)
    requires forall x :: c.owner(x) < |s.nodes|
    ensures ExchangeInv(c, Moved(s, b, m))
  {
    NodesInvStep(c, s, b, m);
    forall e: nat, r ensures Kept(c, Moved(s, b, m), e, r) && Pending(c, Moved(s, b, m), e, r) {
      assert NodeInv(c, s.nodes[b], b) && Kept(c, s, e, r) && Pending(c, s, e, r);
      KeptStep(c, s, b, m, e, r);
      PendingStep(c, s, b, m, e, r);
    }
    forall p: nat, e: nat | p < |s.nodes| && Left(Moved(s, b, m).nodes[p], e) ensures Settled(c, Moved(s, b, m), p, e) {
      SettledStep(c, s, b, m, p, e);
    }
  }

  /** The invariant of a state reached with the processes the run started with. */
  ghost predicate Reached(c: Config, s: Net, n: nat) {
    |s.nodes| == n && ExchangeInv(c, s)
  }

  /** A process that has left round e, remote or counting, holds in its incoming queues of that round
      exactly what was sent to it in that round, each queue as often as it was sent; and everyone who
      could send to it in that round has done so. */
  lemma RoundComplete(c: Config, s: Net, n: nat, p: nat, e: nat)
    requires Reached(c, s, n) && p < n && !s.nodes[p].active && s.nodes[p].rounds == e + 1
    ensures forall r :: QueuesIn(s.nodes[p].incoming, e)[r] == if r.proc == p
        then PostedCount(s, c.owner(r.from), e, r) else 0
    ensures forall q :: 0 <= q < n && Reaches(c, q, p, e) ==> s.nodes[q].rounds > e
  {
    assert IncomingInv(s.nodes[p], p);
    assert Left(s.nodes[p], e) && Settled(c, s, p, e);
    forall r
      ensures QueuesIn(s.nodes[p].incoming, e)[r] == if r.proc == p then PostedCount(s, c.owner(r.from), e, r) else 0
    {
      assert Kept(c, s, e, r);
      assert r.proc == p ==> NothingOut(c, s, e, r);
    }
  }

  predicate SameEdge(r: Rec, r': Rec, f: int, t: int) {
    r.from == r'.from == f && r.to == r'.to == t
  }

  /** In a counting round that is exactly one queue along every edge into the process. */
  lemma OneQueuePerNeighbor(c: Config, s: Net, n: nat, p: nat, e: nat, f: int, t: int)
    requires Reached(c, s, n) && p < n && !s.nodes[p].active && s.nodes[p].rounds == e + 1
    requires !c.remote(e) && IsEdge(c, e, f, t) && c.owner(t) == p && c.owner(f) < n
    ensures var held := QueuesIn(s.nodes[p].incoming, e);
            && (exists r :: r in held && SameEdge(r, r, f, t) && held[r] == 1)
            && (forall r, r' :: r in held && r' in held && SameEdge(r, r', f, t) ==> r == r')
  {
    RoundComplete(c, s, n, p, e);
    var q := c.owner(f);
    assert Reaches(c, q, p, e);
    assert NodeInv(c, s.nodes[q], q);
    assert MayPost(c, q, e, s.nodes[q].posted[e]);
    var r :| r in s.nodes[q].posted[e] && r.from == f && r.to == t;
    assert PostedCount(s, q, e, r) == 1;
    assert SameEdge(r, r, f, t);
  }

  // ---------- where the expected counts come from ----------

  /** (t, proc of t) is in the link of f. */
  ghost function LinkEdges(owner: int -> nat, linkOf: int -> Link): (int, int) -> bool {
    (f, t) => (t, owner(t)) in linkOf(f)
  }

  /** Links name existing blocks on their processes, and name each other. */
  ghost predicate SymmetricLinks(blocks: nat, owner: int -> nat, linkOf: int -> Link) {
    forall b, x :: 0 <= b < blocks && x in linkOf(b) ==>
      0 <= x.0 < blocks && x.1 == owner(x.0) && LinkEdges(owner, linkOf)(x.0, b)
  }

  ghost function SendersTo(edge: (int, int) -> bool, blocks: nat, b: int): set<int> {
    set f | 0 <= f < blocks && edge(f, b)
  }

  /** A set of pairs with different first parts, one for each member of a set, is as large as the set. */
  lemma {:induction false} PairsCount<A>(firsts: set<A>, pairs: set<(A, int)>)
    requires forall x :: x in pairs ==> x.0 in firsts
    requires forall f :: f in firsts ==> exists x :: x in pairs && x.0 == f
    requires forall x, y :: x in pairs && y in pairs && x.0 == y.0 ==> x == y
    ensures |pairs| == |firsts|
    decreases |firsts|
  {
    if firsts == {} {
      assert pairs == {};
    } else {
      var f :| f in firsts;
      var x :| x in pairs && x.0 == f;
      PairsCount(firsts - {f}, pairs - {x});
    }
  }

  lemma OneMoreTarget(edge: (int, int) -> bool, blocks: nat, local: seq<int>, b: int)
    requires b !in local
    ensures |EdgesInto(edge, blocks, local + [b])| == |EdgesInto(edge, blocks, local)| + |SendersTo(edge, blocks, b)|
  {
    var senders := SendersTo(edge, blocks, b);
    var extra := set f | f in senders :: (f, b);
    forall f | f in senders ensures exists x :: x in extra && x.0 == f {
      assert (f, b) in extra;
    }
    PairsCount(senders, extra);
    TargetsAdd(edge, blocks, local, b, extra);
  }

  lemma TargetsAdd(edge: (int, int) -> bool, blocks: nat, local: seq<int>, b: int, extra: set<(int, int)>)
    requires b !in local && forall x :: x in extra <==> x.1 == b && x.0 in SendersTo(edge, blocks, b)
    ensures |EdgesInto(edge, blocks, local + [b])| == |EdgesInto(edge, blocks, local)| + |extra|
  {
    var into, more := EdgesInto(edge, blocks, local), EdgesInto(edge, blocks, local + [b]);
    forall x ensures x in more <==> x in into || x in extra {
      assert x.1 in local + [b] <==> x.1 in local || x.1 == b;
    }
    assert more == into + extra;
    assert into !! extra;
  }

  lemma LinkSize(blocks: nat, owner: int -> nat, linkOf: int -> Link, b: int)
    requires SymmetricLinks(blocks, owner, linkOf) && 0 <= b < blocks
    ensures |Unique(linkOf(b))| == |SendersTo(LinkEdges(owner, linkOf), blocks, b)|
  {
    var senders := SendersTo(LinkEdges(owner, linkOf), blocks, b);
    forall f | f in senders ensures exists x :: x in Unique(linkOf(b)) && x.0 == f {
      assert (b, owner(b)) in linkOf(f);
      assert LinkEdges(owner, linkOf)(b, f);
      assert (f, owner(f)) in Unique(linkOf(b));
    }
    PairsCount(senders, Unique(linkOf(b)));
  }

  /** With symmetric links the sum of the unique neighbors of the local blocks, which `add`, `release` and
      `replace_link` maintain as the expected count, is the number of queues other blocks send here. */
  lemma {:induction false} LinksExpect(blocks: nat, owner: int -> nat, linkOf: int -> Link, gids: seq<int>,
          links: seq<Link>)
    requires SymmetricLinks(blocks, owner, linkOf) && Distinct(gids) && |links| == |gids|
    requires forall i :: 0 <= i < |gids| ==> 0 <= gids[i] < blocks && links[i] == linkOf(gids[i])
    ensures SumUnique(links) == |EdgesInto(LinkEdges(owner, linkOf), blocks, gids)|
  {
    if gids == [] {
      assert EdgesInto(LinkEdges(owner, linkOf), blocks, gids) == {};
    } else {
      var n := |gids| - 1;
      LinksExpect(blocks, owner, linkOf, gids[..n], links[..n]);
      assert gids == gids[..n] + [gids[n]];
      assert gids[n] !in gids[..n];
      LinkSize(blocks, owner, linkOf, gids[n]);
      OneMoreTarget(LinkEdges(owner, linkOf), blocks, gids[..n], gids[n]);
    }
  }
}
