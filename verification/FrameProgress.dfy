/** The rounds of messages can be completed: from wherever a run has come to, it can be continued until every process
    has left every round up to any given one, if all queues are for existing processes. */
module FrameProgress {
  import opened Counting
  import opened Queues
  import opened Schedules
  import opened ExchangeProtocol
  import opened FrameProtocol
  import F = Framing
  import ExchangeSafety
  import FrameSafety

  // ---------- what is known of every state of a run ----------

  /** Requests are of messages that were sent, and there are none once a process is in the barrier or has left. */
  ghost predicate RequestsAt(P: Process, p: nat, channels: (nat, nat) -> Channel) {
    && (!P.active || P.barrier ==> P.requests == {})
    && forall x :: x in P.requests ==> x.index < channels(p, x.to).sent
  }

  ghost predicate RequestsOk(w: Wire) {
    forall p :: 0 <= p < |w.procs| ==> RequestsAt(w.procs[p], p, w.channels)
  }

  lemma SentGrows(c: Config, max: nat, w: Wire, p: nat, a: Act, q: nat, d: nat)
    requires max > 0 && CanAct(c, w, p, a)
    ensures WireAfter(w, p, a, max).channels(q, d).sent >= w.channels(q, d).sent
  {
  }

  lemma RequestsPosted(c: Config, max: nat, w: Wire, p: nat, r: Rec)
    requires max > 0 && CanAct(c, w, p, Post(r)) && RequestsAt(w.procs[p], p, w.channels)
    requires w.procs[p].outgoing != multiset{} ==> !w.procs[p].barrier
    ensures var v := WireAfter(w, p, Post(r), max); RequestsAt(v.procs[p], p, v.channels)
  {
    var v := WireAfter(w, p, Post(r), max);
    forall x | x in v.procs[p].requests ensures x.index < v.channels(p, x.to).sent {
      SentGrows(c, max, w, p, Post(r), p, x.to);
    }
  }

  lemma RequestsStep(c: Config, max: nat, w: Wire, p: nat, a: Act)
    requires max > 0 && CanAct(c, w, p, a) && RequestsOk(w)
    requires w.procs[p].outgoing != multiset{} ==> !w.procs[p].barrier
    ensures RequestsOk(WireAfter(w, p, a, max))
  {
    var v := WireAfter(w, p, a, max);
    forall q | 0 <= q < |v.procs| ensures RequestsAt(v.procs[q], q, v.channels) {
      assert RequestsAt(w.procs[q], q, w.channels);
      if q == p && a.Post? {
        RequestsPosted(c, max, w, p, a.rec);
      } else {
        forall x | x in v.procs[q].requests ensures x.index < v.channels(q, x.to).sent {
          SentGrows(c, max, w, p, a, q, x.to);
        }
      }
    }
  }

  lemma {:induction false} RunRequests(c: Config, max: nat, states: seq<Wire>, i: nat)
    requires IsFrameRun(c, max, states) && i < |states|
    ensures RequestsOk(states[i])
  {
    if i == 0 {
      forall p | 0 <= p < |states[0].procs| ensures RequestsAt(states[0].procs[p], p, states[0].channels) {
        assert Idle(states[0].procs[p]);
      }
    } else {
      RunRequests(c, max, states, i - 1);
      var s, t := FrameSafety.RunInStep(c, max, states, i - 1);
      assert WireFollows(c, max, states[i - 1], states[i]);
      FollowRequests(c, max, states[i - 1], states[i], s, t, |states[0].procs|);
    }
  }

  lemma FollowRequests(c: Config, max: nat, w: Wire, v: Wire, s: Net, t: (nat, nat) -> FrameSafety.Travel, n: nat)
    requires FrameSafety.InStep(c, max, w, s, t, n) && RequestsOk(w) && WireFollows(c, max, w, v)
    ensures RequestsOk(v)
  {
    var p: nat, a :| CanAct(c, w, p, a) && v == WireAfter(w, p, a, max);
    assert ExchangeSafety.NodeInv(c, s.nodes[p], p);
    RequestsStep(c, max, w, p, a);
  }

  // ---------- how far the processes are ----------

  /** Two for beginning a round, one for the barrier, and the rest for leaving. */
  function Rank(P: Process): int {
    if !P.active then 4 * P.rounds else if P.barrier then 4 * P.rounds - 1 else 4 * P.rounds - 2
  }

  function Lag(P: Process, last: nat): nat {
    if Rank(P) < 4 * last then 4 * last - Rank(P) else 0
  }

  function Unsent(P: Process): nat {
    |P.outgoing|
  }

  function Open(P: Process): nat {
    |P.requests|
  }

  /** The messages on their way to process p from the first m processes, and to the first n processes. */
  function Row(channels: (nat, nat) -> Channel, p: nat, m: nat): nat {
    if m == 0 then 0 else Row(channels, p, m - 1) + |channels(m - 1, p).frames|
  }

  function Grid(channels: (nat, nat) -> Channel, m: nat, n: nat): nat {
    if n == 0 then 0 else Grid(channels, m, n - 1) + Row(channels, n - 1, m)
  }

  lemma {:induction false} RowTaken(channels: (nat, nat) -> Channel, q: nat, p: nat, d: nat, m: nat)
    requires channels(q, p).frames != []
    ensures Row(Set(channels, q, p, Advanced(channels(q, p))), d, m) + One(d == p && q < m) == Row(channels, d, m)
  {
    if m > 0 { RowTaken(channels, q, p, d, m - 1); }
  }

  lemma {:induction false} GridTaken(channels: (nat, nat) -> Channel, q: nat, p: nat, m: nat, n: nat)
    requires channels(q, p).frames != [] && q < m
    ensures Grid(Set(channels, q, p, Advanced(channels(q, p))), m, n) + One(p < n) == Grid(channels, m, n)
  {
    if n > 0 {
      GridTaken(channels, q, p, m, n - 1);
      RowTaken(channels, q, p, n - 1, m);
    }
  }

  ghost function LagOf(w: Wire, last: nat): nat {
    Total(P => Lag(P, last), w.procs)
  }

  ghost function UnsentOf(w: Wire): nat {
    Total(P => Unsent(P), w.procs)
  }

  ghost function OpenOf(w: Wire): nat {
    Total(P => Open(P), w.procs) + Grid(w.channels, |w.procs|, |w.procs|)
  }

  /** Less is left: first of the rounds, then to be sent, then to be received or completed. */
  ghost predicate Nearer(w: Wire, v: Wire, last: nat) {
    || LagOf(v, last) < LagOf(w, last)
    || (LagOf(v, last) == LagOf(w, last) && UnsentOf(v) < UnsentOf(w))
    || (LagOf(v, last) == LagOf(w, last) && UnsentOf(v) == UnsentOf(w) && OpenOf(v) < OpenOf(w))
  }

  lemma SumsAfter(w: Wire, p: nat, a: Act, max: nat, last: nat)
    requires max > 0 && p < |w.procs|
    ensures var v, P, Q := WireAfter(w, p, a, max), w.procs[p], ProcessAfter(w, p, a, max);
            && LagOf(v, last) + Lag(P, last) == LagOf(w, last) + Lag(Q, last)
            && UnsentOf(v) + Unsent(P) == UnsentOf(w) + Unsent(Q)
            && Total(X => Open(X), v.procs) + Open(P) == Total(X => Open(X), w.procs) + Open(Q)
  {
    var Q := ProcessAfter(w, p, a, max);
    TotalUpdated(X => Lag(X, last), w.procs, p, Q);
    TotalUpdated(X => Unsent(X), w.procs, p, Q);
    TotalUpdated(X => Open(X), w.procs, p, Q);
  }

  /** An act that lets the process advance. */
  lemma RankNearer(c: Config, max: nat, w: Wire, p: nat, a: Act, last: nat)
    requires max > 0 && CanAct(c, w, p, a) && Rank(w.procs[p]) < 4 * last
    requires a.BeginRound? || a.LeaveBarrier? || a.LeaveCount? || (a.JoinBarrier? && !w.procs[p].barrier)
    ensures Nearer(w, WireAfter(w, p, a, max), last)
  {
    SumsAfter(w, p, a, max, last);
  }

  lemma SentNearer(c: Config, max: nat, w: Wire, p: nat, a: Act, last: nat)
    requires max > 0 && CanAct(c, w, p, a) && (a.PlaceSame? || a.Post?)
    ensures Nearer(w, WireAfter(w, p, a, max), last)
  {
    SumsAfter(w, p, a, max, last);
  }

  lemma DoneNearer(c: Config, max: nat, w: Wire, p: nat, a: Act, last: nat)
    requires max > 0 && CanAct(c, w, p, a) && a.RequestDone?
    ensures Nearer(w, WireAfter(w, p, a, max), last)
  {
    SumsAfter(w, p, a, max, last);
    assert |w.procs[p].requests - {a.request}| == |w.procs[p].requests| - 1;
  }

  lemma TakenNearer(c: Config, max: nat, w: Wire, p: nat, a: Act, last: nat)
    requires max > 0 && CanAct(c, w, p, a) && a.TakeFrame? && a.source < |w.procs|
    ensures Nearer(w, WireAfter(w, p, a, max), last)
  {
    SumsAfter(w, p, a, max, last);
    GridTaken(w.channels, a.source, p, |w.procs|, |w.procs|);
    FrameSafety.TookKeeps(w.procs[p], p, a.source, w.channels(a.source, p).frames[0]);
  }

  // ---------- what keeps a process from waiting for good ----------

  /** Every queue posted so far is for an existing process. */
  ghost predicate Addressed(w: Wire) {
    forall p, e, r :: 0 <= p < |w.procs| && 0 <= e < |w.procs[p].posted| && r in w.procs[p].posted[e] ==>
        r.proc < |w.procs|
  }

  /** A state of a run, in step with one of whole queues. */
  ghost predicate Live(c: Config, max: nat, w: Wire, s: Net, t: (nat, nat) -> FrameSafety.Travel, n: nat) {
    FrameSafety.InStep(c, max, w, s, t, n) && RequestsOk(w) && Addressed(w) && |w.procs| == n
  }

  lemma NothingOnTheWay(c: Config, max: nat, w: Wire, s: Net, t: (nat, nat) -> FrameSafety.Travel, n: nat, q: nat,
                        p: nat)
    requires Live(c, max, w, s, t, n)
    ensures t(q, p).parcels == [] <==> w.channels(q, p).frames == []
    ensures q >= n ==> w.channels(q, p).frames == []
  {
    assert FrameSafety.TripOk(c, max, w, t(q, p), q, p);
    if t(q, p).parcels != [] {
      assert t(q, p).parcels[0] in t(q, p).parcels;
      FrameSafety.TakenOne(t(q, p), max);
    }
  }

  /** A queue on its way was posted by the process of its block, in a round that process has begun. */
  lemma OnTheWay(c: Config, max: nat, w: Wire, s: Net, t: (nat, nat) -> FrameSafety.Travel, n: nat, q: nat, p: nat,
                 k: Parcel)
    requires Live(c, max, w, s, t, n) && k in t(q, p).parcels
    ensures q < n && p < n && k.rec.proc == p && c.owner(k.rec.from) == q && k.round < w.procs[q].rounds
    ensures s.packets[k] > 0
  {
    assert FrameSafety.TripOk(c, max, w, t(q, p), q, p);
    assert FrameSafety.Owned(c, w, k, q, p) && FrameSafety.Counted(c, s, t, k);
    assert ExchangeSafety.Kept(c, s, k.round, k.rec);
    assert k.rec in w.procs[q].posted[k.round];
  }

  lemma LeftHasIt(c: Config, s: Net, p: nat, k: Parcel)
    requires ExchangeSafety.ExchangeInv(c, s) && p < |s.nodes| && !s.nodes[p].active
    requires k.rec.proc == p && k.round < s.nodes[p].rounds
    ensures s.packets[k] == 0
  {
    assert ExchangeSafety.Left(s.nodes[p], k.round);
    assert ExchangeSafety.Settled(c, s, p, k.round);
    assert ExchangeSafety.NothingOut(c, s, k.round, k.rec);
  }

  /** Nothing is on its way to a process that has left the sender's round. */
  lemma LeftHasAll(c: Config, max: nat, w: Wire, s: Net, t: (nat, nat) -> FrameSafety.Travel, n: nat, q: nat, p: nat)
    requires Live(c, max, w, s, t, n) && q < n && p < n && !w.procs[p].active && w.procs[p].rounds >= w.procs[q].rounds
    ensures w.channels(q, p).frames == []
  {
    NothingOnTheWay(c, max, w, s, t, n, q, p);
    var parcels := t(q, p).parcels;
    var k := if parcels == [] then Parcel(0, Rec(0, 0, 0, [], [])) else parcels[0];
    if k in parcels { OnTheWay(c, max, w, s, t, n, q, p, k); }
    if k.rec.proc == p && k.round < s.nodes[p].rounds { LeftHasIt(c, s, p, k); }
  }

  /** All that active processes can send or take in at once has been. */
  ghost predicate Caught(w: Wire) {
    && (forall p :: 0 <= p < |w.procs| && w.procs[p].active ==> w.procs[p].outgoing == multiset{})
    && forall q: nat, p: nat :: p < |w.procs| && w.procs[p].active ==> w.channels(q, p).frames == []
  }

  /** Nobody has advanced less. */
  ghost predicate Last(w: Wire, p: nat) {
    p < |w.procs| && forall q :: 0 <= q < |w.procs| ==> Rank(w.procs[p]) <= Rank(w.procs[q])
  }

  /** The requests of such a process are all matched. */
  lemma AllMatched(c: Config, max: nat, w: Wire, s: Net, t: (nat, nat) -> FrameSafety.Travel, n: nat, p: nat,
                   x: Request)
    requires Live(c, max, w, s, t, n) && Caught(w) && Last(w, p) && w.procs[p].active && x in w.procs[p].requests
    ensures Matched(w.channels(p, x.to), x.index)
  {
    assert RequestsAt(w.procs[p], p, w.channels);
    NothingOnTheWay(c, max, w, s, t, n, p, x.to);
    if x.to < n {
      if !w.procs[x.to].active {
        assert Rank(w.procs[p]) <= Rank(w.procs[x.to]);
        LeftHasAll(c, max, w, s, t, n, p, x.to);
      }
    } else if t(p, x.to).parcels != [] {
      OnTheWay(c, max, w, s, t, n, p, x.to, t(p, x.to).parcels[0]);
    }
  }

  /** The slowest process in a barrier finds that all have entered it. */
  lemma AllEntered(c: Config, max: nat, w: Wire, s: Net, t: (nat, nat) -> FrameSafety.Travel, n: nat, p: nat, q: nat)
    requires Live(c, max, w, s, t, n) && Last(w, p) && w.procs[p].active && w.procs[p].barrier && q < n
    ensures w.procs[p].entered <= w.procs[q].entered
  {
    assert ExchangeSafety.NodeInv(c, s.nodes[p], p) && ExchangeSafety.NodeInv(c, s.nodes[q], q);
    assert Rank(w.procs[p]) <= Rank(w.procs[q]);
    ExchangeSafety.BarriersGrow(c, ExchangeSafety.Passed(s.nodes[p]), ExchangeSafety.Passed(s.nodes[q]));
  }

  // ---------- the count of a counting round ----------

  lemma {:induction false} CoverCount(queues: multiset<Rec>, into: set<(int, int)>)
    requires forall x :: x in into ==> ExchangeSafety.Covers(queues, x)
    ensures |queues| >= |into|
    decreases |into|
  {
    if into != {} {
      var x :| x in into;
      var r :| r in queues && r.from == x.0 && r.to == x.1;
      var fewer, less := queues - multiset{r}, into - {x};
      forall y | y in less ensures ExchangeSafety.Covers(fewer, y) {
        var z :| z in queues && z.from == y.0 && z.to == y.1;
        assert z in fewer;
      }
      CoverCount(fewer, less);
    }
  }

  /** Who has posted a queue in a round has it no longer, nor is it on its way: it has arrived. */
  lemma HasArrived(c: Config, max: nat, w: Wire, s: Net, t: (nat, nat) -> FrameSafety.Travel, n: nat, p: nat, e: nat,
                   r: Rec)
    requires Live(c, max, w, s, t, n) && Caught(w) && p < n && w.procs[p].active && r.proc == p
    requires ExchangeSafety.PostedCount(s, c.owner(r.from), e, r) > 0
    ensures r in w.procs[p].arrived(e)
  {
    var q := c.owner(r.from);
    NothingOnTheWay(c, max, w, s, t, n, q, p);
    assert FrameSafety.Counted(c, s, t, Parcel(e, r));
    assert ExchangeSafety.Kept(c, s, e, r);
    assert ExchangeSafety.NodeInv(c, s.nodes[q], q);
  }

  lemma EdgeCovered(c: Config, max: nat, w: Wire, s: Net, t: (nat, nat) -> FrameSafety.Travel, n: nat, p: nat, e: nat,
                    f: int, b: int)
    requires Live(c, max, w, s, t, n) && Caught(w) && Last(w, p) && w.procs[p].active && w.procs[p].rounds == e + 1
    requires !c.remote(e) && IsEdge(c, e, f, b) && c.owner(b) == p
    ensures ExchangeSafety.Covers(w.procs[p].arrived(e), (f, b))
  {
    var q := c.owner(f);
    assert Rank(w.procs[p]) <= Rank(w.procs[q]);
    assert ExchangeSafety.NodeInv(c, s.nodes[q], q);
    assert MayPost(c, q, e, s.nodes[q].posted[e]);
    var r :| r in s.nodes[q].posted[e] && r.from == f && r.to == b;
    HasArrived(c, max, w, s, t, n, p, e, r);
  }

  lemma AllCounted(c: Config, max: nat, w: Wire, s: Net, t: (nat, nat) -> FrameSafety.Travel, n: nat, p: nat, e: nat)
    requires Live(c, max, w, s, t, n) && Caught(w) && Last(w, p) && w.procs[p].active && w.procs[p].rounds == e + 1
    requires !c.remote(e)
    ensures ReceivedIn(w.procs[p].incoming, e) >= c.expected(p, e)
  {
    var into := EdgesInto(c.edges(e), c.blocks, c.locals(p));
    assert ExchangeSafety.IncomingInv(s.nodes[p], p);
    forall x | x in into ensures ExchangeSafety.Covers(w.procs[p].arrived(e), x) {
      assert c.owner(x.1) == p;
      EdgeCovered(c, max, w, s, t, n, p, e, x.0, x.1);
    }
    CoverCount(w.procs[p].arrived(e), into);
  }

  // ---------- beginning a round ----------

  ghost function OnePerEdge(c: Config, p: nat, e: nat): set<Rec> {
    set f, b | 0 <= f < c.blocks && 0 <= b < c.blocks && c.owner(f) == p && c.edges(e)(f, b) ::
      Rec(f, b, c.owner(b), [], [])
  }

  /** There is always something a process may post: empty queues along its edges, or nothing in a remote round. */
  lemma SomethingToPost(c: Config, p: nat, e: nat, n: nat) returns (queues: multiset<Rec>)
    requires forall b :: c.owner(b) < n
    ensures MayPost(c, p, e, queues) && forall r :: r in queues ==> r.from >= 0 && r.proc < n
  {
    if c.remote(e) {
      queues := multiset{};
    } else {
      var all := OnePerEdge(c, p, e);
      queues := multiset(all);
      forall f, b | IsEdge(c, e, f, b) && c.owner(f) == p ensures exists r :: r in queues && r.from == f && r.to == b {
        assert Rec(f, b, c.owner(b), [], []) in all;
      }
    }
  }

  // ---------- what to do next ----------

  /** What a process is about to post is for existing processes too. */
  ghost predicate Fair(a: Act, n: nat) {
    a.BeginRound? ==> forall r :: r in a.queues ==> r.proc < n
  }

  ghost predicate Brings(c: Config, max: nat, w: Wire, p: nat, a: Act, last: nat)
    requires max > 0
  {
    CanAct(c, w, p, a) && Fair(a, |w.procs|) && Nearer(w, WireAfter(w, p, a, max), last)
  }

  lemma SendOne(c: Config, max: nat, w: Wire, s: Net, p: nat, last: nat) returns (a: Act)
    requires max > 0 && p < |w.procs| == |s.nodes| && FrameSafety.NodesMatch(w, s) && ExchangeSafety.NodesInv(c, s)
    requires w.procs[p].active && w.procs[p].outgoing != multiset{}
    ensures Brings(c, max, w, p, a, last)
  {
    assert ExchangeSafety.NodeInv(c, s.nodes[p], p);
    var r :| r in w.procs[p].outgoing;
    a := if r.proc == p then PlaceSame(r) else Post(r);
    SentNearer(c, max, w, p, a, last);
  }

  lemma TakeOne(c: Config, max: nat, w: Wire, s: Net, t: (nat, nat) -> FrameSafety.Travel, n: nat, q: nat, p: nat,
                last: nat)
    returns (a: Act)
    requires Live(c, max, w, s, t, n) && p < n && w.procs[p].active && w.channels(q, p).frames != []
    ensures Brings(c, max, w, p, a, last)
  {
    NothingOnTheWay(c, max, w, s, t, n, q, p);
    a := TakeFrame(q);
    TakenNearer(c, max, w, p, a, last);
  }

  lemma BeginOne(c: Config, max: nat, w: Wire, s: Net, t: (nat, nat) -> FrameSafety.Travel, n: nat, p: nat, last: nat)
    returns (a: Act)
    requires Live(c, max, w, s, t, n) && p < n && !w.procs[p].active && w.procs[p].rounds < last
    ensures Brings(c, max, w, p, a, last)
  {
    var queues := SomethingToPost(c, p, w.procs[p].rounds, n);
    a := BeginRound(queues);
    RankNearer(c, max, w, p, a, last);
  }

  lemma CompleteOne(c: Config, max: nat, w: Wire, s: Net, t: (nat, nat) -> FrameSafety.Travel, n: nat, p: nat,
                    last: nat)
    returns (a: Act)
    requires Live(c, max, w, s, t, n) && Caught(w) && Last(w, p) && w.procs[p].active && w.procs[p].requests != {}
    ensures Brings(c, max, w, p, a, last)
  {
    assert ExchangeSafety.NodeInv(c, s.nodes[p], p);
    var x :| x in w.procs[p].requests;
    AllMatched(c, max, w, s, t, n, p, x);
    a := RequestDone(x);
    DoneNearer(c, max, w, p, a, last);
  }

  lemma LeaveOne(c: Config, max: nat, w: Wire, s: Net, t: (nat, nat) -> FrameSafety.Travel, n: nat, p: nat, last: nat)
    returns (a: Act)
    requires Live(c, max, w, s, t, n) && Caught(w) && Last(w, p) && w.procs[p].active && w.procs[p].requests == {}
    requires w.procs[p].rounds <= last
    ensures Brings(c, max, w, p, a, last)
  {
    assert ExchangeSafety.NodeInv(c, s.nodes[p], p);
    var e := w.procs[p].rounds - 1;
    if c.remote(e) {
      a := if w.procs[p].barrier then LeaveBarrier else JoinBarrier;
      forall q | 0 <= q < n && w.procs[p].barrier ensures w.procs[p].entered <= w.procs[q].entered {
        AllEntered(c, max, w, s, t, n, p, q);
      }
    } else {
      a := LeaveCount;
      AllCounted(c, max, w, s, t, n, p, e);
    }
    RankNearer(c, max, w, p, a, last);
  }

  lemma {:induction false} LastOf(w: Wire, m: nat) returns (p: nat)
    requires 0 < m <= |w.procs|
    ensures p < m && forall q :: 0 <= q < m ==> Rank(w.procs[p]) <= Rank(w.procs[q])
  {
    if m == 1 {
      p := 0;
    } else {
      p := LastOf(w, m - 1);
      if Rank(w.procs[m - 1]) < Rank(w.procs[p]) { p := m - 1; }
    }
  }

  /** All have left the rounds before `last`. */
  ghost predicate AllLeft(w: Wire, last: nat) {
    forall p :: 0 <= p < |w.procs| ==> !w.procs[p].active && w.procs[p].rounds == last
  }

  ghost predicate NobodyPast(w: Wire, last: nat) {
    forall p :: 0 <= p < |w.procs| ==> w.procs[p].rounds <= last
  }

  lemma NextAct(c: Config, max: nat, w: Wire, s: Net, t: (nat, nat) -> FrameSafety.Travel, n: nat, last: nat)
    returns (p: nat, a: Act)
    requires Live(c, max, w, s, t, n) && NobodyPast(w, last) && !AllLeft(w, last)
    ensures Brings(c, max, w, p, a, last) && (a.BeginRound? ==> w.procs[p].rounds < last)
  {
    if q :| 0 <= q < n && w.procs[q].active && w.procs[q].outgoing != multiset{} {
      p := q;
      a := SendOne(c, max, w, s, p, last);
    } else if q: nat, d: nat :| d < n && w.procs[d].active && w.channels(q, d).frames != [] {
      p := d;
      a := TakeOne(c, max, w, s, t, n, q, p, last);
    } else {
      p := LastOf(w, n);
      if w.procs[p].active {
        if w.procs[p].requests != {} {
          a := CompleteOne(c, max, w, s, t, n, p, last);
        } else {
          a := LeaveOne(c, max, w, s, t, n, p, last);
        }
      } else {
        SomebodyBehind(w, p, last);
        a := BeginOne(c, max, w, s, t, n, p, last);
      }
    }
  }

  lemma SomebodyBehind(w: Wire, p: nat, last: nat)
    requires Last(w, p) && !w.procs[p].active && NobodyPast(w, last) && !AllLeft(w, last)
    ensures w.procs[p].rounds < last
  {
    var q :| 0 <= q < |w.procs| && !(!w.procs[q].active && w.procs[q].rounds == last);
    assert Rank(w.procs[p]) <= Rank(w.procs[q]);
  }

  // ---------- continuing a run ----------

  lemma AddressedStep(c: Config, max: nat, w: Wire, p: nat, a: Act)
    requires max > 0 && CanAct(c, w, p, a) && Addressed(w) && Fair(a, |w.procs|)
    ensures Addressed(WireAfter(w, p, a, max))
  {
    var v := WireAfter(w, p, a, max);
    forall q, e, r | 0 <= q < |v.procs| && 0 <= e < |v.procs[q].posted| && r in v.procs[q].posted[e]
      ensures r.proc < |v.procs|
    {
      if q == p && a.BeginRound? {
        if e < |w.procs[q].posted| { assert v.procs[q].posted[e] == w.procs[q].posted[e]; }
      } else if q == p && a.TakeFrame? {
        FrameSafety.TookKeeps(w.procs[p], p, a.source, w.channels(a.source, p).frames[0]);
      } else {
        assert v.procs[q].posted == w.procs[q].posted;
      }
    }
  }

  lemma PastStep(c: Config, max: nat, w: Wire, p: nat, a: Act, last: nat)
    requires max > 0 && CanAct(c, w, p, a) && NobodyPast(w, last) && (a.BeginRound? ==> w.procs[p].rounds < last)
    ensures NobodyPast(WireAfter(w, p, a, max), last)
  {
    if a.TakeFrame? {
      FrameSafety.TookKeeps(w.procs[p], p, a.source, w.channels(a.source, p).frames[0]);
    }
  }

  lemma RunOn(c: Config, max: nat, states: seq<Wire>, w: Wire, p: nat, a: Act) returns (states': seq<Wire>)
    requires IsFrameRun(c, max, states) && states[|states| - 1] == w && CanAct(c, w, p, a)
    ensures IsFrameRun(c, max, states') && states <= states' && states'[|states'| - 1] == WireAfter(w, p, a, max)
  {
    var v := WireAfter(w, p, a, max);
    states' := states + [v];
    assert WireFollows(c, max, w, v);
    forall i | 0 < i < |states'| ensures WireFollows(c, max, states'[i - 1], states'[i]) {
      if i < |states| { assert WireFollows(c, max, states[i - 1], states[i]); }
    }
  }

  lemma {:induction false} CatchUp(c: Config, max: nat, states: seq<Wire>, w: Wire, s: Net,
                                   t: (nat, nat) -> FrameSafety.Travel, n: nat, last: nat)
    returns (states': seq<Wire>)
    requires IsFrameRun(c, max, states) && states[|states| - 1] == w
    requires Live(c, max, w, s, t, n) && NobodyPast(w, last)
    ensures IsFrameRun(c, max, states') && states <= states' && AllLeft(states'[|states'| - 1], last)
    decreases LagOf(w, last), UnsentOf(w), OpenOf(w)
  {
    if AllLeft(w, last) {
      states' := states;
    } else {
      var p, a := NextAct(c, max, w, s, t, n, last);
      var v := WireAfter(w, p, a, max);
      var u, g := FrameSafety.ActInStep(c, max, w, s, t, n, p, a);
      assert ExchangeSafety.NodeInv(c, s.nodes[p], p);
      RequestsStep(c, max, w, p, a);
      AddressedStep(c, max, w, p, a);
      PastStep(c, max, w, p, a, last);
      var more := RunOn(c, max, states, w, p, a);
      states' := CatchUp(c, max, more, v, u, g, n, last);
    }
  }

  /** Whatever has been posted to existing processes and however far the processes have come: all can leave all
      rounds up to any given one, remote or counting. */
  lemma CanComplete(c: Config, max: nat, states: seq<Wire>, last: nat) returns (states': seq<Wire>)
    requires IsFrameRun(c, max, states) && Addressed(states[|states| - 1]) && NobodyPast(states[|states| - 1], last)
    ensures IsFrameRun(c, max, states') && states <= states' && AllLeft(states'[|states'| - 1], last)
  {
    var s, t := FrameSafety.RunInStep(c, max, states, |states| - 1);
    RunRequests(c, max, states, |states| - 1);
    states' := CatchUp(c, max, states, states[|states| - 1], s, t, |states[0].procs|, last);
  }

  // ---------- when they cannot ----------

  ghost predicate Continues(c: Config, max: nat, states: seq<Wire>, states': seq<Wire>) {
    IsFrameRun(c, max, states') && states <= states'
  }

  lemma PostedStays(c: Config, max: nat, w: Wire, v: Wire, p: nat)
    requires max > 0 && WireFollows(c, max, w, v) && p < |w.procs|
    ensures |v.procs| == |w.procs| && w.procs[p].posted <= v.procs[p].posted
  {
    var q: nat, a :| CanAct(c, w, q, a) && v == WireAfter(w, q, a, max);
    if a.TakeFrame? {
      FrameSafety.TookKeeps(w.procs[q], q, a.source, w.channels(a.source, q).frames[0]);
    }
  }

  /** A queue posted for a process that is not there. */
  ghost predicate Astray(w: Wire, p: nat, e: nat, r: Rec) {
    p < |w.procs| && e < |w.procs[p].posted| && r in w.procs[p].posted[e] && r.proc >= |w.procs|
  }

  lemma {:induction false} AstrayForGood(c: Config, max: nat, states: seq<Wire>, i: nat, j: nat, p: nat, e: nat, r: Rec)
    requires IsFrameRun(c, max, states) && i <= j < |states| && Astray(states[i], p, e, r)
    ensures Astray(states[j], p, e, r)
    decreases j - i
  {
    if i < j {
      assert WireFollows(c, max, states[i + 1 - 1], states[i + 1]);
      PostedStays(c, max, states[i], states[i + 1], p);
      AstrayForGood(c, max, states, i + 1, j, p, e, r);
    }
  }

  /** Its sender does not leave the round. */
  lemma AstrayStays(c: Config, max: nat, w: Wire, s: Net, t: (nat, nat) -> FrameSafety.Travel, n: nat, p: nat, e: nat,
                    r: Rec)
    requires FrameSafety.InStep(c, max, w, s, t, n) && Astray(w, p, e, r)
    ensures w.procs[p].active && w.procs[p].rounds == e + 1
  {
    assert ExchangeSafety.NodeInv(c, s.nodes[p], p);
    assert MayPost(c, p, e, s.nodes[p].posted[e]);
    assert ExchangeSafety.Kept(c, s, e, r) && ExchangeSafety.Pending(c, s, e, r);
  }

  lemma CannotComplete(c: Config, max: nat, states: seq<Wire>, states': seq<Wire>, last: nat)
    requires IsFrameRun(c, max, states) && Continues(c, max, states, states')
    requires !Addressed(states[|states| - 1])
    ensures !AllLeft(states'[|states'| - 1], last)
  {
    var w := states[|states| - 1];
    var p, e, r :| 0 <= p < |w.procs| && 0 <= e < |w.procs[p].posted| && r in w.procs[p].posted[e]
        && r.proc >= |w.procs|;
    assert states'[|states| - 1] == w;
    AstrayForGood(c, max, states', |states| - 1, |states'| - 1, p, e, r);
    var s, t := FrameSafety.RunInStep(c, max, states', |states'| - 1);
    AstrayStays(c, max, states'[|states'| - 1], s, t, |states'[0].procs|, p, e, r);
  }

  /** From wherever a run has come to, it can be continued until all have left all rounds up to any given one, remote
      or counting, if and only if every queue posted so far is for an existing process. */
  lemma CanCompleteIff(c: Config, max: nat, states: seq<Wire>, last: nat)
    requires IsFrameRun(c, max, states) && NobodyPast(states[|states| - 1], last)
    ensures (exists states' :: Continues(c, max, states, states') && AllLeft(states'[|states'| - 1], last))
       <==> Addressed(states[|states| - 1])
  {
    if Addressed(states[|states| - 1]) {
      var states' := CanComplete(c, max, states, last);
      assert Continues(c, max, states, states');
    } else {
      forall states' | Continues(c, max, states, states') ensures !AllLeft(states'[|states'| - 1], last) {
        CannotComplete(c, max, states, states', last);
      }
    }
  }
}
