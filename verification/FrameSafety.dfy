/** Safety of the exchange rounds over every run of messages: whatever the number of pieces and blobs, a
    run keeps step with one of ExchangeProtocol, where a queue is one message, and so every process that
    leaves a round holds exactly the queues sent to it in that round. */
module FrameSafety {
  import opened Queues
  import opened Options
  import opened ExchangeProtocol
  import opened ExchangeSafety
  import opened FrameProtocol
  import F = Framing

  // ---------- queues on a channel ----------

  /** The queues from one process to another that are not complete at the receiver, oldest first, and how
      many messages of the oldest it has. */
  datatype Travel = Travel(parcels: seq<Parcel>, taken: nat)

  function Stream(parcels: seq<Parcel>, max: nat): seq<F.Bytes>
    requires max > 0
  {
    if parcels == [] then [] else FramesOf(parcels[0], max) + Stream(parcels[1..], max)
  }

  predicate WellTaken(x: Travel, max: nat)
    requires max > 0
  {
    if x.parcels == [] then x.taken == 0 else x.taken < |FramesOf(x.parcels[0], max)|
  }

  function ToCome(x: Travel, max: nat): seq<F.Bytes>
    requires max > 0 && WellTaken(x, max)
  {
    if x.parcels == [] then [] else FramesOf(x.parcels[0], max)[x.taken..] + Stream(x.parcels[1..], max)
  }

  function TakenIn(x: Travel, max: nat): F.InFlight
    requires max > 0 && WellTaken(x, max)
  {
    if x.parcels == [] then F.FRESH else F.Receive(F.FRESH, FramesOf(x.parcels[0], max)[..x.taken]).0
  }

  /** A channel and the state its receiver keeps for it. */
  predicate Carries(ch: Channel, recv: F.InFlight, x: Travel, max: nat)
    requires max > 0
  {
    WellTaken(x, max) && |ch.frames| <= ch.sent && ch.frames == ToCome(x, max) && recv == TakenIn(x, max)
  }

  lemma {:induction false} StreamAppend(parcels: seq<Parcel>, k: Parcel, max: nat)
    requires max > 0
    ensures Stream(parcels + [k], max) == Stream(parcels, max) + FramesOf(k, max)
  {
    if parcels == [] {
      assert parcels + [k] == [k] && [k][1..] == [] && Stream([], max) == [];
      AppendNone(FramesOf(k, max));
    } else {
      StreamAppend(parcels[1..], k, max);
      assert (parcels + [k])[1..] == parcels[1..] + [k];
      AppendAssoc(FramesOf(parcels[0], max), Stream(parcels[1..], max), FramesOf(k, max));
    }
  }

  lemma FreshStart(x: Travel, max: nat)
    requires max >= F.SIZE + F.INFO && x.taken == 0 && forall k :: k in x.parcels ==> k.rec.from >= 0
    ensures WellTaken(x, max) && ToCome(x, max) == Stream(x.parcels, max) && TakenIn(x, max) == F.FRESH
  {
    if x.parcels != [] {
      F.FirstFrame(AsQueue(x.parcels[0]), max);
      assert FramesOf(x.parcels[0], max)[..0] == [];
    }
  }

  lemma ToComePosted(x: Travel, k: Parcel, max: nat)
    requires max > 0 && WellTaken(x, max) && x.parcels != []
    ensures ToCome(x.(parcels := x.parcels + [k]), max) == ToCome(x, max) + FramesOf(k, max)
  {
    StreamAppend(x.parcels[1..], k, max);
    assert (x.parcels + [k])[1..] == x.parcels[1..] + [k];
    AppendAssoc(FramesOf(x.parcels[0], max)[x.taken..], Stream(x.parcels[1..], max), FramesOf(k, max));
  }

  lemma AppendNone<A>(a: seq<A>)
    ensures a + [] == a && [] + a == a
  {
  }

  lemma AppendAssoc<A>(a: seq<A>, b: seq<A>, d: seq<A>)
    ensures a + (b + d) == (a + b) + d
  {
  }

  lemma CarriesPosted(ch: Channel, recv: F.InFlight, x: Travel, k: Parcel, max: nat)
    requires max >= F.SIZE + F.INFO && Carries(ch, recv, x, max) && k.rec.from >= 0
    ensures Carries(Append(ch, FramesOf(k, max)), recv, x.(parcels := x.parcels + [k]), max)
  {
    if x.parcels == [] {
      assert [] + [k] == [k];
      FreshStart(Travel([k], 0), max);
      StreamAppend([], k, max);
    } else {
      ToComePosted(x, k, max);
    }
  }

  predicate LastOne(x: Travel, max: nat)
    requires max > 0 && x.parcels != []
  {
    x.taken + 1 == |FramesOf(x.parcels[0], max)|
  }

  function Onward(x: Travel, max: nat): Travel
    requires max > 0 && x.parcels != []
  {
    if LastOne(x, max) then Travel(x.parcels[1..], 0) else x.(taken := x.taken + 1)
  }

  lemma TakenOne(x: Travel, max: nat)
    requires max > 0 && WellTaken(x, max) && x.parcels != []
    ensures ToCome(x, max) != [] && ToCome(x, max)[0] == FramesOf(x.parcels[0], max)[x.taken]
    ensures !LastOne(x, max) ==> ToCome(x, max)[1..] == ToCome(Onward(x, max), max)
    ensures LastOne(x, max) ==> ToCome(x, max)[1..] == Stream(x.parcels[1..], max)
  {
    DropOne(FramesOf(x.parcels[0], max), x.taken, Stream(x.parcels[1..], max));
  }

  lemma DropOne<A>(a: seq<A>, n: nat, b: seq<A>)
    requires n < |a|
    ensures (a[n..] + b)[0] == a[n] && (a[n..] + b)[1..] == a[n + 1..] + b
    ensures n + 1 == |a| ==> a[n + 1..] + b == b
  {
  }

  /** The next message completes the oldest queue, or is one more of it. */
  lemma CarriesTaken(ch: Channel, recv: F.InFlight, x: Travel, max: nat)
    requires max >= F.SIZE + F.INFO && Carries(ch, recv, x, max) && ch.frames != []
    requires forall k :: k in x.parcels ==> k.rec.from >= 0
    ensures x.parcels != []
    ensures F.Advance(recv, ch.frames[0]).1 == if LastOne(x, max) then Some(AsQueue(x.parcels[0])) else None
    ensures Carries(Advanced(ch), F.Advance(recv, ch.frames[0]).0, Onward(x, max), max)
  {
    assert x.parcels[0] in x.parcels;
    F.NextFrame(AsQueue(x.parcels[0]), max, x.taken);
    TakenOne(x, max);
    if LastOne(x, max) { FreshStart(Travel(x.parcels[1..], 0), max); }
  }

  // ---------- keeping step ----------

  function AsNode(P: Process, sends: multiset<Rec>): Node {
    Node(P.rounds, P.active, P.outgoing, sends, P.incoming, P.barrier, P.entered, P.posted, P.arrived)
  }

  ghost predicate NodesMatch(w: Wire, s: Net) {
    |s.nodes| == |w.procs| && forall i :: 0 <= i < |s.nodes| ==> s.nodes[i] == AsNode(w.procs[i], s.nodes[i].sends)
  }

  /** Block ids are not negative. */
  ghost predicate OwnIds(w: Wire) {
    forall i, r :: 0 <= i < |w.procs| && r in w.procs[i].outgoing ==> r.from >= 0
  }

  ghost predicate OwnSends(c: Config, s: Net) {
    forall i, r :: 0 <= i < |s.nodes| && r in s.nodes[i].sends ==> c.owner(r.from) == i
  }

  ghost predicate Counts(c: Config, s: Net, t: (nat, nat) -> Travel) {
    forall k: Parcel :: Counted(c, s, t, k)
  }

  ghost predicate Counted(c: Config, s: Net, t: (nat, nat) -> Travel, k: Parcel) {
    s.packets[k] == multiset(t(c.owner(k.rec.from), k.rec.proc).parcels)[k]
  }

  ghost predicate Owned(c: Config, w: Wire, k: Parcel, q: nat, p: nat) {
    && k.rec.proc == p && c.owner(k.rec.from) == q && k.rec.from >= 0
    && q < |w.procs| && k.round < w.procs[q].rounds
  }

  ghost predicate HasCurrent(x: Travel, e: nat) {
    exists k :: k in x.parcels && k.round == e
  }

  /** While a queue of the current remote round is not complete at its receiver, the request of the last
      message sent there is open. */
  ghost predicate LastOpen(c: Config, P: Process, sent: nat, x: Travel, p: nat) {
    P.active && P.rounds > 0 && c.remote(P.rounds - 1) && HasCurrent(x, P.rounds - 1) ==>
      sent > 0 && Request(p, sent - 1) in P.requests
  }

  function RecvAt(w: Wire, p: nat, source: nat): F.InFlight {
    if p < |w.procs| then RecvFrom(w.procs[p].recvs, source) else F.FRESH
  }

  ghost predicate TripOk(c: Config, max: nat, w: Wire, x: Travel, q: nat, p: nat)
    requires max > 0
  {
    && Carries(w.channels(q, p), RecvAt(w, p, q), x, max)
    && (forall k :: k in x.parcels ==> Owned(c, w, k, q, p))
    && (q < |w.procs| ==> LastOpen(c, w.procs[q], w.channels(q, p).sent, x, p))
  }

  ghost predicate TripsOk(c: Config, max: nat, w: Wire, t: (nat, nat) -> Travel)
    requires max > 0
  {
    forall q, p :: TripOk(c, max, w, t(q, p), q, p)
  }

  ghost predicate InStep(c: Config, max: nat, w: Wire, s: Net, t: (nat, nat) -> Travel, n: nat) {
    && max >= F.SIZE + F.INFO && ValidConfig(c) && (forall b :: c.owner(b) < n)
    && Reached(c, s, n) && NodesMatch(w, s) && OwnIds(w) && OwnSends(c, s) && Counts(c, s, t) && TripsOk(c, max, w, t)
  }

  // ---------- acts that leave the channels alone ----------

  /** The process p changes to Q and nothing is sent or received. */
  lemma TripQuiet(c: Config, max: nat, w: Wire, v: Wire, p: nat, x: Travel, q: nat, d: nat)
    requires max > 0 && p < |w.procs| && TripOk(c, max, w, x, q, d) && |v.procs| == |w.procs|
    requires v.channels == w.channels && v.procs == w.procs[p := v.procs[p]]
    requires v.procs[p].recvs == w.procs[p].recvs && v.procs[p].rounds >= w.procs[p].rounds
    requires q == p ==> LastOpen(c, v.procs[p], w.channels(q, d).sent, x, d)
    ensures TripOk(c, max, v, x, q, d)
  {
    forall k | k in x.parcels ensures Owned(c, v, k, q, d) {
      assert Owned(c, w, k, q, d);
    }
  }

  /** A process that keeps its round and its requests, or is not in a round. */
  lemma TripsQuiet(c: Config, max: nat, w: Wire, v: Wire, p: nat, t: (nat, nat) -> Travel)
    requires max > 0 && p < |w.procs| && TripsOk(c, max, w, t) && |v.procs| == |w.procs|
    requires v.channels == w.channels && v.procs == w.procs[p := v.procs[p]]
    requires v.procs[p].recvs == w.procs[p].recvs && v.procs[p].rounds == w.procs[p].rounds
    requires v.procs[p].active ==> w.procs[p].active && v.procs[p].requests == w.procs[p].requests
    ensures TripsOk(c, max, v, t)
  {
    forall q, d ensures TripOk(c, max, v, t(q, d), q, d) {
      assert TripOk(c, max, w, t(q, d), q, d);
      TripQuiet(c, max, w, v, p, t(q, d), q, d);
    }
  }

  lemma TripsBegun(c: Config, max: nat, w: Wire, p: nat, queues: multiset<Rec>, t: (nat, nat) -> Travel)
    requires max > 0 && p < |w.procs| && TripsOk(c, max, w, t)
    ensures TripsOk(c, max, WireAfter(w, p, BeginRound(queues), max), t)
  {
    var v := WireAfter(w, p, BeginRound(queues), max);
    forall q, d ensures TripOk(c, max, v, t(q, d), q, d) {
      assert TripOk(c, max, w, t(q, d), q, d);
      if q == p {
        forall k | k in t(q, d).parcels ensures k.round != w.procs[p].rounds {
          assert Owned(c, w, k, q, d);
        }
        assert !HasCurrent(t(q, d), w.procs[p].rounds);
      }
      TripQuiet(c, max, w, v, p, t(q, d), q, d);
    }
  }

  /** A request that has completed is not the one of a message still to be received. */
  lemma TripsDone(c: Config, max: nat, w: Wire, p: nat, x: Request, t: (nat, nat) -> Travel)
    requires max >= F.SIZE + F.INFO && CanAct(c, w, p, RequestDone(x)) && TripsOk(c, max, w, t)
    ensures TripsOk(c, max, WireAfter(w, p, RequestDone(x), max), t)
  {
    var v := WireAfter(w, p, RequestDone(x), max);
    forall q, d ensures TripOk(c, max, v, t(q, d), q, d) {
      assert TripOk(c, max, w, t(q, d), q, d);
      if q == p && t(q, d).parcels != [] { StillComing(t(q, d), max); }
      TripQuiet(c, max, w, v, p, t(q, d), q, d);
    }
  }

  lemma StillComing(x: Travel, max: nat)
    requires max > 0 && WellTaken(x, max) && x.parcels != []
    ensures ToCome(x, max) != []
  {
    DropOne(FramesOf(x.parcels[0], max), x.taken, Stream(x.parcels[1..], max));
  }

  // ---------- acts on a channel ----------

  ghost function SetTrip(t: (nat, nat) -> Travel, from: nat, to: nat, x: Travel): (nat, nat) -> Travel {
    (q: nat, p: nat) => if q == from && p == to then x else t(q, p)
  }

  /** The processes keep their rounds and lose no request. */
  ghost predicate SameRounds(w: Wire, v: Wire) {
    |v.procs| == |w.procs| && forall q :: 0 <= q < |w.procs| ==> SameRound(w.procs[q], v.procs[q])
  }

  ghost predicate SameRound(P: Process, Q: Process) {
    Q.rounds == P.rounds && Q.active == P.active && P.requests <= Q.requests
  }

  lemma TripBeside(c: Config, max: nat, w: Wire, v: Wire, x: Travel, q: nat, d: nat)
    requires max > 0 && TripOk(c, max, w, x, q, d) && SameRounds(w, v)
    requires v.channels(q, d) == w.channels(q, d) && RecvAt(v, d, q) == RecvAt(w, d, q)
    ensures TripOk(c, max, v, x, q, d)
  {
    forall k | k in x.parcels ensures Owned(c, v, k, q, d) {
      assert Owned(c, w, k, q, d);
    }
    if q < |w.procs| { assert SameRound(w.procs[q], v.procs[q]); }
  }

  lemma TripPosted(c: Config, max: nat, w: Wire, v: Wire, p: nat, k: Parcel, x: Travel)
    requires max >= F.SIZE + F.INFO && p < |w.procs| && TripOk(c, max, w, x, p, k.rec.proc) && SameRounds(w, v)
    requires Owned(c, w, k, p, k.rec.proc) && RecvAt(v, k.rec.proc, p) == RecvAt(w, k.rec.proc, p)
    requires v.channels(p, k.rec.proc) == Append(w.channels(p, k.rec.proc), FramesOf(k, max))
    requires RequestsFor(k.rec.proc, w.channels(p, k.rec.proc).sent, |FramesOf(k, max)|) <= v.procs[p].requests
    ensures TripOk(c, max, v, x.(parcels := x.parcels + [k]), p, k.rec.proc)
  {
    var d, ch, n := k.rec.proc, w.channels(p, k.rec.proc), |FramesOf(k, max)|;
    CarriesPosted(ch, RecvAt(w, d, p), x, k, max);
    forall j | j in x.parcels + [k] ensures Owned(c, v, j, p, d) {
      assert j in x.parcels ==> Owned(c, w, j, p, d);
      assert SameRound(w.procs[p], v.procs[p]);
    }
    F.FirstFrame(AsQueue(k), max);
    assert Request(d, ch.sent + n - 1) in RequestsFor(d, ch.sent, n);
  }

  lemma TripTaken(c: Config, max: nat, w: Wire, v: Wire, p: nat, source: nat, x: Travel)
    requires max >= F.SIZE + F.INFO && TripOk(c, max, w, x, source, p) && SameRounds(w, v)
    requires w.channels(source, p).frames != [] && v.channels(source, p) == Advanced(w.channels(source, p))
    requires RecvAt(v, p, source) == F.Advance(RecvAt(w, p, source), w.channels(source, p).frames[0]).0
    ensures x.parcels != [] && TripOk(c, max, v, Onward(x, max), source, p)
  {
    forall k | k in x.parcels ensures k.rec.from >= 0 && Owned(c, v, k, source, p) {
      assert Owned(c, w, k, source, p);
    }
    CarriesTaken(w.channels(source, p), RecvAt(w, p, source), x, max);
    OnwardParcels(x, max);
    if source < |w.procs| {
      assert SameRound(w.procs[source], v.procs[source]);
      LastStaysOpen(c, w.procs[source], v.procs[source], w.channels(source, p).sent, x, Onward(x, max), p);
    }
  }

  lemma OnwardParcels(x: Travel, max: nat)
    requires max > 0 && x.parcels != []
    ensures forall k :: k in Onward(x, max).parcels ==> k in x.parcels
  {
  }

  lemma LastStaysOpen(c: Config, P: Process, Q: Process, sent: nat, x: Travel, y: Travel, p: nat)
    requires LastOpen(c, P, sent, x, p) && SameRound(P, Q) && forall k :: k in y.parcels ==> k in x.parcels
    ensures LastOpen(c, Q, sent, y, p)
  {
    assert forall e :: HasCurrent(y, e) ==> HasCurrent(x, e);
  }

  lemma PostWire(c: Config, max: nat, w: Wire, v: Wire, p: nat, r: Rec, k: Parcel)
    requires max > 0 && CanAct(c, w, p, Post(r)) && v == WireAfter(w, p, Post(r), max)
    requires k == Parcel(w.procs[p].rounds - 1, r)
    ensures SameRounds(w, v) && v.channels
        == Set(w.channels, p, r.proc, Append(w.channels(p, r.proc), FramesOf(k, max)))
    ensures v.procs == w.procs[p := Posted(w.procs[p], r, w.channels(p, r.proc).sent, |FramesOf(k, max)|)]
    ensures forall q, d :: RecvAt(v, d, q) == RecvAt(w, d, q)
  {
  }

  lemma TripsPosted(c: Config, max: nat, w: Wire, p: nat, r: Rec, k: Parcel, t: (nat, nat) -> Travel, x: Travel)
    requires max >= F.SIZE + F.INFO && CanAct(c, w, p, Post(r)) && TripsOk(c, max, w, t)
    requires c.owner(r.from) == p && r.from >= 0 && k == Parcel(w.procs[p].rounds - 1, r) && x == t(p, r.proc)
    ensures TripsOk(c, max, WireAfter(w, p, Post(r), max), SetTrip(t, p, r.proc, x.(parcels := x.parcels + [k])))
  {
    var v := WireAfter(w, p, Post(r), max);
    PostWire(c, max, w, v, p, r, k);
    assert TripOk(c, max, w, x, p, r.proc);
    TripPosted(c, max, w, v, p, k, x);
    var y := x.(parcels := x.parcels + [k]);
    forall q, d ensures TripOk(c, max, v, SetTrip(t, p, r.proc, y)(q, d), q, d) {
      if q != p || d != r.proc {
        assert TripOk(c, max, w, t(q, d), q, d);
        TripBeside(c, max, w, v, t(q, d), q, d);
      }
    }
  }

  lemma TookKeeps(P: Process, p: nat, source: nat, frame: F.Bytes)
    ensures var Q, recv := Took(P, p, source, frame), F.Advance(RecvFrom(P.recvs, source), frame).0;
            && Q.recvs == P.recvs[source := recv] && SameRound(P, Q) && Q.outgoing == P.outgoing
  {
  }

  lemma TakeWire(c: Config, max: nat, w: Wire, v: Wire, p: nat, source: nat)
    requires max > 0 && CanAct(c, w, p, TakeFrame(source)) && v == WireAfter(w, p, TakeFrame(source), max)
    ensures SameRounds(w, v) && v.channels == Set(w.channels, source, p, Advanced(w.channels(source, p)))
    ensures v.procs == w.procs[p := Took(w.procs[p], p, source, w.channels(source, p).frames[0])]
    ensures forall q, d :: q != source || d != p ==> RecvAt(v, d, q) == RecvAt(w, d, q)
    ensures RecvAt(v, p, source) == F.Advance(RecvAt(w, p, source), w.channels(source, p).frames[0]).0
  {
    TookKeeps(w.procs[p], p, source, w.channels(source, p).frames[0]);
  }

  lemma TripsTaken(c: Config, max: nat, w: Wire, p: nat, source: nat, t: (nat, nat) -> Travel, x: Travel)
    requires max >= F.SIZE + F.INFO && CanAct(c, w, p, TakeFrame(source)) && TripsOk(c, max, w, t) && x == t(source, p)
    ensures x.parcels != []
    ensures TripsOk(c, max, WireAfter(w, p, TakeFrame(source), max), SetTrip(t, source, p, Onward(x, max)))
  {
    var v := WireAfter(w, p, TakeFrame(source), max);
    TakeWire(c, max, w, v, p, source);
    assert TripOk(c, max, w, x, source, p);
    TripTaken(c, max, w, v, p, source, x);
    forall q, d ensures TripOk(c, max, v, SetTrip(t, source, p, Onward(x, max))(q, d), q, d) {
      if q != source || d != p {
        assert TripOk(c, max, w, t(q, d), q, d);
        TripBeside(c, max, w, v, t(q, d), q, d);
      }
    }
  }

  // ---------- the steps a queue takes as a whole ----------

  lemma MatchAfter(w: Wire, v: Wire, s: Net, u: Net, p: nat)
    requires NodesMatch(w, s) && p < |w.procs| && |v.procs| == |w.procs| && |u.nodes| == |s.nodes|
    requires v.procs == w.procs[p := v.procs[p]] && u.nodes == s.nodes[p := u.nodes[p]]
    requires u.nodes[p] == AsNode(v.procs[p], u.nodes[p].sends)
    ensures NodesMatch(v, u)
  {
  }

  lemma OwnAfter(c: Config, w: Wire, v: Wire, s: Net, u: Net, p: nat)
    requires NodesMatch(w, s) && p < |w.procs| && |v.procs| == |w.procs| && |u.nodes| == |s.nodes|
    requires v.procs == w.procs[p := v.procs[p]] && u.nodes == s.nodes[p := u.nodes[p]]
    requires OwnIds(w) && OwnSends(c, s)
    requires forall r :: r in v.procs[p].outgoing ==> r.from >= 0
    requires forall r :: r in u.nodes[p].sends ==> c.owner(r.from) == p
    ensures OwnIds(v) && OwnSends(c, u)
  {
  }

  lemma CountsPosted(c: Config, s: Net, u: Net, t: (nat, nat) -> Travel, p: nat, k: Parcel, x: Travel)
    requires Counts(c, s, t) && c.owner(k.rec.from) == p && x == t(p, k.rec.proc)
    requires u.packets == s.packets + multiset{k}
    ensures Counts(c, u, SetTrip(t, p, k.rec.proc, x.(parcels := x.parcels + [k])))
  {
    forall j: Parcel ensures Counted(c, u, SetTrip(t, p, k.rec.proc, x.(parcels := x.parcels + [k])), j) {
      assert Counted(c, s, t, j);
    }
  }

  lemma CountsTaken(c: Config, s: Net, u: Net, t: (nat, nat) -> Travel, p: nat, source: nat, x: Travel, max: nat)
    requires Counts(c, s, t) && x == t(source, p) && x.parcels != [] && max > 0
    requires c.owner(x.parcels[0].rec.from) == source && x.parcels[0].rec.proc == p
    requires u.packets == if LastOne(x, max) then s.packets - multiset{x.parcels[0]} else s.packets
    ensures Counts(c, u, SetTrip(t, source, p, Onward(x, max)))
  {
    assert x.parcels == [x.parcels[0]] + x.parcels[1..];
    forall j: Parcel ensures Counted(c, u, SetTrip(t, source, p, Onward(x, max)), j) {
      assert Counted(c, s, t, j);
    }
  }

  lemma LastOpenOf(c: Config, max: nat, w: Wire, t: (nat, nat) -> Travel, q: nat, p: nat)
    requires max > 0 && TripsOk(c, max, w, t) && q < |w.procs|
    ensures LastOpen(c, w.procs[q], w.channels(q, p).sent, t(q, p), p)
  {
    assert TripOk(c, max, w, t(q, p), q, p);
  }

  /** A process with no request open has nothing of its remote round on the way. */
  lemma NothingOpen(c: Config, max: nat, w: Wire, s: Net, t: (nat, nat) -> Travel, p: nat, r: Rec)
    requires max > 0 && TripsOk(c, max, w, t) && Counts(c, s, t) && p < |w.procs| && c.owner(r.from) == p
    requires w.procs[p].active && w.procs[p].rounds > 0 && c.remote(w.procs[p].rounds - 1) && w.procs[p].requests == {}
    ensures s.packets[Parcel(w.procs[p].rounds - 1, r)] == 0
  {
    var k := Parcel(w.procs[p].rounds - 1, r);
    LastOpenOf(c, max, w, t, p, r.proc);
    assert k in t(p, r.proc).parcels ==> HasCurrent(t(p, r.proc), k.round);
    assert Counted(c, s, t, k);
  }

  function WithSends(s: Net, p: nat, sends: multiset<Rec>): Net
    requires p < |s.nodes|
  {
    s.(nodes := s.nodes[p := s.nodes[p].(sends := sends)])
  }

  ghost predicate Drained(c: Config, s: Net, p: nat, n: nat, sends: multiset<Rec>) {
    p < n == |s.nodes| && sends <= s.nodes[p].sends && Reached(c, WithSends(s, p, sends), n)
  }

  lemma CompleteOne(c: Config, s: Net, p: nat, n: nat, sends: multiset<Rec>, r: Rec)
    requires ValidConfig(c) && Drained(c, s, p, n, sends) && s.nodes[p].active && s.nodes[p].rounds > 0
    requires (forall b :: c.owner(b) < n) && r in sends
    requires c.remote(s.nodes[p].rounds - 1) ==> s.packets[Parcel(s.nodes[p].rounds - 1, r)] == 0
    ensures Drained(c, s, p, n, sends - multiset{r})
  {
    ExchangeStep(c, WithSends(s, p, sends), p, Complete(r));
    assert Moved(WithSends(s, p, sends), p, Complete(r)) == WithSends(s, p, sends - multiset{r});
  }

  lemma {:induction false} DrainAll(c: Config, s: Net, p: nat, n: nat, sends: multiset<Rec>)
    requires ValidConfig(c) && Drained(c, s, p, n, sends) && s.nodes[p].active && s.nodes[p].rounds > 0
    requires (forall b :: c.owner(b) < n) && AllMatched(c, s, s.nodes[p], sends)
    ensures Drained(c, s, p, n, multiset{})
    decreases |sends|
  {
    if sends != multiset{} {
      var r :| r in sends;
      CompleteOne(c, s, p, n, sends, r);
      DrainAll(c, s, p, n, sends - multiset{r});
    }
  }

  /** The sends whose messages have all been received, if the round is a remote one. */
  ghost predicate AllMatched(c: Config, s: Net, P: Node, sends: multiset<Rec>)
    requires P.rounds > 0
  {
    c.remote(P.rounds - 1) ==> forall r :: r in sends ==> s.packets[Parcel(P.rounds - 1, r)] == 0
  }

  /** Once their messages have all been received, the sends of a process can complete one after another. */
  lemma Drain(c: Config, s: Net, p: nat, n: nat) returns (u: Net)
    requires ValidConfig(c) && Reached(c, s, n) && p < n && s.nodes[p].active && s.nodes[p].rounds > 0
    requires (forall b :: c.owner(b) < n) && AllMatched(c, s, s.nodes[p], s.nodes[p].sends)
    ensures Reached(c, u, n) && u.packets == s.packets
    ensures u.nodes == s.nodes[p := s.nodes[p].(sends := multiset{})]
  {
    assert WithSends(s, p, s.nodes[p].sends) == s;
    DrainAll(c, s, p, n, s.nodes[p].sends);
    u := WithSends(s, p, multiset{});
  }

  /** A step that sends and receives nothing. */
  lemma KeepsStep(c: Config, max: nat, w: Wire, v: Wire, s: Net, u: Net, t: (nat, nat) -> Travel, n: nat, p: nat)
    requires InStep(c, max, w, s, t, n) && p < n && |v.procs| == n
    requires v.procs == w.procs[p := v.procs[p]] && Reached(c, u, n)
    requires u.nodes == s.nodes[p := u.nodes[p]] && u.packets == s.packets
    requires u.nodes[p] == AsNode(v.procs[p], u.nodes[p].sends)
    requires forall r :: r in v.procs[p].outgoing ==> r.from >= 0
    requires u.nodes[p].sends <= s.nodes[p].sends && TripsOk(c, max, v, t)
    ensures InStep(c, max, v, u, t, n)
  {
    MatchAfter(w, v, s, u, p);
    OwnAfter(c, w, v, s, u, p);
    forall k: Parcel ensures Counted(c, u, t, k) {
      assert Counted(c, s, t, k);
    }
  }

  lemma StepBegin(c: Config, max: nat, w: Wire, s: Net, t: (nat, nat) -> Travel, n: nat, p: nat, queues: multiset<Rec>)
    returns (u: Net)
    requires InStep(c, max, w, s, t, n) && CanAct(c, w, p, BeginRound(queues))
    ensures InStep(c, max, WireAfter(w, p, BeginRound(queues), max), u, t, n)
  {
    u := Moved(s, p, Begin(queues));
    ExchangeStep(c, s, p, Begin(queues));
    TripsBegun(c, max, w, p, queues, t);
    KeepsStep(c, max, w, WireAfter(w, p, BeginRound(queues), max), s, u, t, n, p);
  }

  lemma PlacedAlike(P: Process, sends: multiset<Rec>, r: Rec)
    requires P.rounds > 0
    ensures NodeAfter(AsNode(P, sends), SendSame(r)) == AsNode(PlacedSame(P, r), sends)
    ensures SameRound(P, PlacedSame(P, r)) && PlacedSame(P, r).outgoing == P.outgoing - multiset{r}
  {
  }

  lemma StepSame(c: Config, max: nat, w: Wire, s: Net, t: (nat, nat) -> Travel, n: nat, p: nat, r: Rec) returns (u: Net)
    requires InStep(c, max, w, s, t, n) && CanAct(c, w, p, PlaceSame(r))
    ensures InStep(c, max, WireAfter(w, p, PlaceSame(r), max), u, t, n)
  {
    u := Moved(s, p, SendSame(r));
    var v := WireAfter(w, p, PlaceSame(r), max);
    PlacedAlike(w.procs[p], s.nodes[p].sends, r);
    assert v.procs[p] == PlacedSame(w.procs[p], r) && v.channels == w.channels;
    ExchangeStep(c, s, p, SendSame(r));
    TripsQuiet(c, max, w, v, p, t);
    KeepsStep(c, max, w, v, s, u, t, n, p);
  }

  lemma StepDone(c: Config, max: nat, w: Wire, s: Net, t: (nat, nat) -> Travel, n: nat, p: nat, x: Request)
    requires InStep(c, max, w, s, t, n) && CanAct(c, w, p, RequestDone(x))
    ensures InStep(c, max, WireAfter(w, p, RequestDone(x), max), s, t, n)
  {
    TripsDone(c, max, w, p, x, t);
    KeepsStep(c, max, w, WireAfter(w, p, RequestDone(x), max), s, s, t, n, p);
  }

  /** The sends that are complete as a whole complete before the barrier is entered. */
  lemma JoinDrained(c: Config, s: Net, n: nat, p: nat) returns (u: Net)
    requires ValidConfig(c) && Reached(c, s, n) && p < n && s.nodes[p].active && s.nodes[p].rounds > 0
    requires (forall b :: c.owner(b) < n) && AllMatched(c, s, s.nodes[p], s.nodes[p].sends)
    requires c.remote(s.nodes[p].rounds - 1) && !s.nodes[p].barrier && s.nodes[p].outgoing == multiset{}
    ensures Reached(c, u, n) && u.packets == s.packets
    ensures u.nodes
         == s.nodes[p := s.nodes[p].(sends := multiset{}, barrier := true, entered := s.nodes[p].entered + 1)]
  {
    var d := Drain(c, s, p, n);
    u := Moved(d, p, EnterBarrier);
    ExchangeStep(c, d, p, EnterBarrier);
  }

  lemma StepJoin(c: Config, max: nat, w: Wire, s: Net, t: (nat, nat) -> Travel, n: nat, p: nat) returns (u: Net)
    requires InStep(c, max, w, s, t, n) && CanAct(c, w, p, JoinBarrier)
    ensures InStep(c, max, WireAfter(w, p, JoinBarrier, max), u, t, n)
  {
    forall r | r in s.nodes[p].sends ensures s.packets[Parcel(s.nodes[p].rounds - 1, r)] == 0 {
      NothingOpen(c, max, w, s, t, p, r);
    }
    assert s.nodes[p] == AsNode(w.procs[p], s.nodes[p].sends);
    u := JoinDrained(c, s, n, p);
    TripsQuiet(c, max, w, WireAfter(w, p, JoinBarrier, max), p, t);
    KeepsStep(c, max, w, WireAfter(w, p, JoinBarrier, max), s, u, t, n, p);
  }

  lemma StepLeave(c: Config, max: nat, w: Wire, s: Net, t: (nat, nat) -> Travel, n: nat, p: nat) returns (u: Net)
    requires InStep(c, max, w, s, t, n) && CanAct(c, w, p, LeaveBarrier)
    ensures InStep(c, max, WireAfter(w, p, LeaveBarrier, max), u, t, n)
  {
    u := Moved(s, p, LeaveRemote);
    ExchangeStep(c, s, p, LeaveRemote);
    TripsQuiet(c, max, w, WireAfter(w, p, LeaveBarrier, max), p, t);
    KeepsStep(c, max, w, WireAfter(w, p, LeaveBarrier, max), s, u, t, n, p);
  }

  lemma LeaveDrained(c: Config, s: Net, n: nat, p: nat) returns (u: Net)
    requires ValidConfig(c) && Reached(c, s, n) && p < n && s.nodes[p].active && s.nodes[p].rounds > 0
    requires (forall b :: c.owner(b) < n) && !c.remote(s.nodes[p].rounds - 1) && s.nodes[p].outgoing == multiset{}
    requires ReceivedIn(s.nodes[p].incoming, s.nodes[p].rounds - 1) >= c.expected(p, s.nodes[p].rounds - 1)
    ensures Reached(c, u, n) && u.packets == s.packets
    ensures u.nodes == s.nodes[p := s.nodes[p].(sends := multiset{}, active := false)]
  {
    var d := Drain(c, s, p, n);
    u := Moved(d, p, LeaveCounted);
    ExchangeStep(c, d, p, LeaveCounted);
  }

  lemma StepCount(c: Config, max: nat, w: Wire, s: Net, t: (nat, nat) -> Travel, n: nat, p: nat) returns (u: Net)
    requires InStep(c, max, w, s, t, n) && CanAct(c, w, p, LeaveCount)
    ensures InStep(c, max, WireAfter(w, p, LeaveCount, max), u, t, n)
  {
    assert s.nodes[p] == AsNode(w.procs[p], s.nodes[p].sends);
    u := LeaveDrained(c, s, n, p);
    TripsQuiet(c, max, w, WireAfter(w, p, LeaveCount, max), p, t);
    KeepsStep(c, max, w, WireAfter(w, p, LeaveCount, max), s, u, t, n, p);
  }

  lemma StepPost(c: Config, max: nat, w: Wire, s: Net, t: (nat, nat) -> Travel, n: nat, p: nat, r: Rec)
    returns (u: Net, g: (nat, nat) -> Travel)
    requires InStep(c, max, w, s, t, n) && CanAct(c, w, p, Post(r))
    ensures InStep(c, max, WireAfter(w, p, Post(r), max), u, g, n)
  {
    var v, k, x := WireAfter(w, p, Post(r), max), Parcel(w.procs[p].rounds - 1, r), t(p, r.proc);
    u := Moved(s, p, SendOther(r));
    g := SetTrip(t, p, r.proc, x.(parcels := x.parcels + [k]));
    ExchangeStep(c, s, p, SendOther(r));
    assert NodeInv(c, s.nodes[p], p);
    OwnQueues(c, s.nodes[p], p, r);
    PostWire(c, max, w, v, p, r, k);
    TripsPosted(c, max, w, p, r, k, t, x);
    CountsPosted(c, s, u, t, p, k, x);
    MatchAfter(w, v, s, u, p);
    OwnAfter(c, w, v, s, u, p);
  }

  lemma TookWhole(P: Process, p: nat, source: nat, frame: F.Bytes, k: Parcel, sends: multiset<Rec>)
    requires F.Advance(RecvFrom(P.recvs, source), frame).1 == Some(AsQueue(k)) && k.rec.proc == p
    ensures AsNode(Took(P, p, source, frame), sends) == Take(AsNode(P, sends), k.round, k.rec)
  {
    assert AsRec(AsQueue(k), p) == k.rec;
  }

  lemma TookPart(P: Process, p: nat, source: nat, frame: F.Bytes, sends: multiset<Rec>)
    requires F.Advance(RecvFrom(P.recvs, source), frame).1 == None
    ensures AsNode(Took(P, p, source, frame), sends) == AsNode(P, sends)
  {
  }

  /** What the next message from a source means. */
  lemma NextTaken(c: Config, max: nat, w: Wire, s: Net, t: (nat, nat) -> Travel, n: nat, p: nat, source: nat, x: Travel)
    requires InStep(c, max, w, s, t, n) && CanAct(c, w, p, TakeFrame(source)) && x == t(source, p)
    ensures x.parcels != [] && Owned(c, w, x.parcels[0], source, p) && x.parcels[0] in s.packets
    ensures F.Advance(RecvFrom(w.procs[p].recvs, source), w.channels(source, p).frames[0]).1
         == if LastOne(x, max) then Some(AsQueue(x.parcels[0])) else None
  {
    assert TripOk(c, max, w, x, source, p);
    forall k | k in x.parcels ensures k.rec.from >= 0 {
      assert Owned(c, w, k, source, p);
    }
    CarriesTaken(w.channels(source, p), RecvAt(w, p, source), x, max);
    assert x.parcels[0] in x.parcels && Counted(c, s, t, x.parcels[0]);
  }

  lemma StepTake(c: Config, max: nat, w: Wire, s: Net, t: (nat, nat) -> Travel, n: nat, p: nat, source: nat)
    returns (u: Net, g: (nat, nat) -> Travel)
    requires InStep(c, max, w, s, t, n) && CanAct(c, w, p, TakeFrame(source))
    ensures InStep(c, max, WireAfter(w, p, TakeFrame(source), max), u, g, n)
  {
    var v, x := WireAfter(w, p, TakeFrame(source), max), t(source, p);
    var P, frame, sends := w.procs[p], w.channels(source, p).frames[0], s.nodes[p].sends;
    NextTaken(c, max, w, s, t, n, p, source, x);
    TakeWire(c, max, w, v, p, source);
    TookKeeps(P, p, source, frame);
    g := SetTrip(t, source, p, Onward(x, max));
    if LastOne(x, max) {
      u := Moved(s, p, Receive(x.parcels[0]));
      ExchangeStep(c, s, p, Receive(x.parcels[0]));
      TookWhole(P, p, source, frame, x.parcels[0], sends);
    } else {
      u := s;
      TookPart(P, p, source, frame, sends);
    }
    TripsTaken(c, max, w, p, source, t, x);
    CountsTaken(c, s, u, t, p, source, x, max);
    MatchAfter(w, v, s, u, p);
    OwnAfter(c, w, v, s, u, p);
  }

  // ---------- every run ----------

  lemma StartInStep(c: Config, max: nat, w: Wire, n: nat) returns (s: Net, t: (nat, nat) -> Travel)
    requires max >= F.SIZE + F.INFO && ValidConfig(c) && (forall b :: c.owner(b) < n)
    requires WireStart(w) && |w.procs| == n
    ensures InStep(c, max, w, s, t, n)
  {
    s := Net(seq(n, i requires 0 <= i < n => AsNode(w.procs[i], multiset{})), multiset{});
    t := (q: nat, p: nat) => Travel([], 0);
    forall i | 0 <= i < n ensures Fresh(s.nodes[i]) && forall r :: r !in w.procs[i].outgoing {
      assert Idle(w.procs[i]);
    }
    StartInv(c, s);
    forall q: nat, p: nat ensures TripOk(c, max, w, t(q, p), q, p) {
      assert w.channels(q, p) == Channel(0, []) && t(q, p).parcels == [];
      assert p < n ==> Idle(w.procs[p]);
    }
    forall k: Parcel ensures Counted(c, s, t, k) {
      assert multiset(t(c.owner(k.rec.from), k.rec.proc).parcels) == multiset{};
    }
  }

  lemma ActInStep(c: Config, max: nat, w: Wire, s: Net, t: (nat, nat) -> Travel, n: nat, p: nat, a: Act)
    returns (u: Net, g: (nat, nat) -> Travel)
    requires InStep(c, max, w, s, t, n) && CanAct(c, w, p, a)
    ensures InStep(c, max, WireAfter(w, p, a, max), u, g, n)
  {
    g := t;
    match a
    case BeginRound(queues) => u := StepBegin(c, max, w, s, t, n, p, queues);
    case PlaceSame(r) => u := StepSame(c, max, w, s, t, n, p, r);
    case Post(r) => u, g := StepPost(c, max, w, s, t, n, p, r);
    case RequestDone(x) =>
      StepDone(c, max, w, s, t, n, p, x);
      u := s;
    case TakeFrame(source) => u, g := StepTake(c, max, w, s, t, n, p, source);
    case JoinBarrier => u := StepJoin(c, max, w, s, t, n, p);
    case LeaveBarrier => u := StepLeave(c, max, w, s, t, n, p);
    case LeaveCount => u := StepCount(c, max, w, s, t, n, p);
  }

  lemma FollowInStep(c: Config, max: nat, w: Wire, v: Wire, s: Net, t: (nat, nat) -> Travel, n: nat)
    returns (u: Net, g: (nat, nat) -> Travel)
    requires InStep(c, max, w, s, t, n) && WireFollows(c, max, w, v)
    ensures InStep(c, max, v, u, g, n)
  {
    var p: nat, a :| CanAct(c, w, p, a) && v == WireAfter(w, p, a, max);
    u, g := ActInStep(c, max, w, s, t, n, p, a);
  }

  /** Every run of messages keeps step with a run of whole queues. */
  lemma {:induction false} RunInStep(c: Config, max: nat, states: seq<Wire>, i: nat)
    returns (s: Net, t: (nat, nat) -> Travel)
    requires IsFrameRun(c, max, states) && i < |states|
    ensures InStep(c, max, states[i], s, t, |states[0].procs|)
  {
    if i == 0 {
      s, t := StartInStep(c, max, states[0], |states[0].procs|);
    } else {
      var s', t' := RunInStep(c, max, states, i - 1);
      assert WireFollows(c, max, states[i - 1], states[i]);
      s, t := FollowInStep(c, max, states[i - 1], states[i], s', t', |states[0].procs|);
    }
  }

  ghost function PostedBy(w: Wire, q: nat, e: nat, r: Rec): nat {
    if q < |w.procs| && e < |w.procs[q].posted| then w.procs[q].posted[e][r] else 0
  }

  lemma PostedAlike(w: Wire, s: Net, q: nat, e: nat, r: Rec)
    requires NodesMatch(w, s)
    ensures PostedCount(s, q, e, r) == PostedBy(w, q, e, r)
  {
  }

  /** A process that has left round e, remote or counting, holds in its incoming queues of that round
      exactly what was sent to it in that round, bytes and blobs, each queue as often as it was sent; and
      everyone who could send to it in that round has done so. */
  lemma RoundComplete(c: Config, max: nat, states: seq<Wire>, i: nat, p: nat, e: nat)
    requires IsFrameRun(c, max, states) && i < |states| && p < |states[i].procs|
    requires !states[i].procs[p].active && states[i].procs[p].rounds == e + 1
    ensures forall r :: QueuesIn(states[i].procs[p].incoming, e)[r]
                     == if r.proc == p then PostedBy(states[i], c.owner(r.from), e, r) else 0
    ensures forall q :: 0 <= q < |states[i].procs| && Reaches(c, q, p, e) ==> states[i].procs[q].rounds > e
  {
    var n := |states[0].procs|;
    var s, t := RunInStep(c, max, states, i);
    ExchangeSafety.RoundComplete(c, s, n, p, e);
    forall r
      ensures QueuesIn(states[i].procs[p].incoming, e)[r]
           == if r.proc == p then PostedBy(states[i], c.owner(r.from), e, r) else 0
    {
      PostedAlike(states[i], s, c.owner(r.from), e, r);
    }
  }

  /** In a counting round that is exactly one queue along every edge into the process. */
  lemma OneQueuePerNeighbor(c: Config, max: nat, states: seq<Wire>, i: nat, p: nat, e: nat, f: int, t: int)
    requires IsFrameRun(c, max, states) && i < |states| && p < |states[i].procs|
    requires !states[i].procs[p].active && states[i].procs[p].rounds == e + 1
    requires !c.remote(e) && IsEdge(c, e, f, t) && c.owner(t) == p
    ensures var held := QueuesIn(states[i].procs[p].incoming, e);
            && (exists r :: r in held && SameEdge(r, r, f, t) && held[r] == 1)
            && (forall r, r' :: r in held && r' in held && SameEdge(r, r', f, t) ==> r == r')
  {
    var s, trips := RunInStep(c, max, states, i);
    ExchangeSafety.OneQueuePerNeighbor(c, s, |states[0].procs|, p, e, f, t);
  }

  lemma HeadFits(q: F.Queue, max: nat, n: nat)
    requires q.from >= 0 && max >= F.SIZE + F.INFO && n < |F.Frames(q, max)|
    requires F.Receive(F.FRESH, F.Frames(q, max)[..n]).0.info.from == -1
    ensures |F.Frames(q, max)[n]| >= F.INFO
  {
    F.Countdown(q, max, n);
  }

  /** The next message from a source: one that is taken for the first of a queue is long enough to end with
      the info; and a queue that it completes is one the source sent, of no round that was left. */
  lemma AssertionHolds(c: Config, max: nat, states: seq<Wire>, i: nat, p: nat, source: nat)
    requires IsFrameRun(c, max, states) && i < |states| && CanAct(c, states[i], p, TakeFrame(source))
    ensures var recv, frame := RecvFrom(states[i].procs[p].recvs, source), states[i].channels(source, p).frames[0];
            var placed := F.Advance(recv, frame).1;
            && (recv.info.from == -1 ==> |frame| >= F.INFO)
            && (placed.Some? ==>
                  && placed.value.round >= states[i].procs[p].rounds - 1 && placed.value.round >= 0
                  && PostedBy(states[i], source, placed.value.round, AsRec(placed.value, p)) > 0)
  {
    var s, t := RunInStep(c, max, states, i);
    var x, n, w := t(source, p), |states[0].procs|, states[i];
    NextTaken(c, max, w, s, t, n, p, source, x);
    assert TripOk(c, max, w, x, source, p);
    TakenOne(x, max);
    var k := x.parcels[0];
    if TakenIn(x, max).info.from == -1 { HeadFits(AsQueue(k), max, x.taken); }
    if LastOne(x, max) {
      RoundNotPast(c, s, p, k);
      assert Kept(c, s, k.round, k.rec);
      PostedAlike(w, s, source, k.round, k.rec);
      assert AsRec(AsQueue(k), p) == k.rec;
    }
  }

  /** Queues of the current round or a later one that have arrived are all there, counted under their
      own round. */
  lemma EarlyQueuesWait(c: Config, max: nat, states: seq<Wire>, i: nat, p: nat, e: nat)
    requires IsFrameRun(c, max, states) && i < |states| && p < |states[i].procs|
    requires e >= states[i].procs[p].rounds - 1
    ensures QueuesIn(states[i].procs[p].incoming, e) == states[i].procs[p].arrived(e)
    ensures ReceivedIn(states[i].procs[p].incoming, e) == |states[i].procs[p].arrived(e)|
  {
    var s, t := RunInStep(c, max, states, i);
    assert IncomingInv(s.nodes[p], p);
  }

  /** Nothing is kept of a round once the next one has begun. */
  lemma NothingStale(c: Config, max: nat, states: seq<Wire>, i: nat, p: nat, e: nat)
    requires IsFrameRun(c, max, states) && i < |states| && p < |states[i].procs|
    requires e in states[i].procs[p].incoming
    ensures e >= states[i].procs[p].rounds - 1
  {
    var s, t := RunInStep(c, max, states, i);
    assert IncomingInv(s.nodes[p], p);
  }
}
