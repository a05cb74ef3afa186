/** The exchange rounds as the messages make them: a queue sent to another process is one message, or a
    head, pieces and blobs, each with a request of its own; messages from one process to another arrive
    in the order they were sent, and the receiver keeps one partly received queue per source. */
module FrameProtocol {
  import opened Queues
  import opened ExchangeProtocol
  import F = Framing

  /** Messages from one process to another: how many were sent, and those not received yet, oldest first. */
  datatype Channel = Channel(sent: nat, frames: seq<F.Bytes>)

  /** The request of the index-th message sent to a process. */
  datatype Request = Request(to: nat, index: nat)

  /** As `Node`, but with a request for each message and the queues received in part. */
  datatype Process = Process(rounds: nat, active: bool, outgoing: multiset<Rec>, requests: set<Request>,
                             incoming: map<nat, Incoming>, recvs: map<nat, F.InFlight>, barrier: bool, entered: nat,
                             posted: seq<multiset<Rec>>, arrived: nat -> multiset<Rec>)

  datatype Wire = Wire(procs: seq<Process>, channels: (nat, nat) -> Channel)

  datatype Act =
    | BeginRound(queues: multiset<Rec>)
    | PlaceSame(rec: Rec)
    | Post(rec: Rec)
    | RequestDone(request: Request)
    | TakeFrame(source: nat)
    | JoinBarrier
    | LeaveBarrier
    | LeaveCount

  function AsQueue(k: Parcel): F.Queue {
    F.Queue(k.rec.from, k.rec.to, k.round, k.rec.payload, k.rec.blobs)
  }

  /** A queue as process p files it. */
  function AsRec(q: F.Queue, p: nat): Rec {
    Rec(q.from, q.to, p, q.bytes, q.blobs)
  }

  function FramesOf(k: Parcel, max: nat): seq<F.Bytes>
    requires max > 0
  {
    F.Frames(AsQueue(k), max)
  }

  /** The state of `inflight_recv(source)`. */
  function RecvFrom(recvs: map<nat, F.InFlight>, source: nat): F.InFlight {
    if source in recvs then recvs[source] else F.FRESH
  }

  /** The receive of this message has started. */
  predicate Matched(ch: Channel, index: nat) {
    index < ch.sent - |ch.frames|
  }

  ghost predicate CanAct(c: Config, w: Wire, p: nat, a: Act) {
    p < |w.procs| &&
    var P := w.procs[p];
    match a
    case BeginRound(queues) =>
      !P.active && MayPost(c, p, P.rounds, queues) && forall r :: r in queues ==> r.from >= 0
    case PlaceSame(r) => P.active && P.rounds > 0 && r in P.outgoing && r.proc == p
    case Post(r) => P.active && P.rounds > 0 && r in P.outgoing && r.proc != p
    case RequestDone(x) =>
      // a synchronous send completes only after its receive has started
      && P.active && P.rounds > 0 && x in P.requests
      && (c.remote(P.rounds - 1) ==> Matched(w.channels(p, x.to), x.index))
    case TakeFrame(source) => P.active && w.channels(source, p).frames != []
    case JoinBarrier =>
      P.active && P.rounds > 0 && c.remote(P.rounds - 1) && !P.barrier && P.outgoing == multiset{} && P.requests == {}
    case LeaveBarrier =>
      // a nonblocking barrier completes only after all processes have entered it
      P.active && P.barrier && forall q :: 0 <= q < |w.procs| ==> P.entered <= w.procs[q].entered
    case LeaveCount =>
      && P.active && P.rounds > 0 && !c.remote(P.rounds - 1) && P.outgoing == multiset{} && P.requests == {}
      && ReceivedIn(P.incoming, P.rounds - 1) >= c.expected(p, P.rounds - 1)
  }

  // ---------- what one process does ----------

  ghost function Begun(P: Process, queues: multiset<Rec>): Process {
    P.(rounds := P.rounds + 1, active := true, outgoing := queues, posted := P.posted + [queues], barrier := false,
       incoming := WithoutRound(P.incoming, P.rounds))
  }

  ghost function Placed(P: Process, e: nat, r: Rec): Process {
    P.(incoming := Filed(P.incoming, e, r), arrived := Recorded(P.arrived, e, r))
  }

  ghost function PlacedSame(P: Process, r: Rec): Process
    requires P.rounds > 0
  {
    Placed(P.(outgoing := P.outgoing - multiset{r}), P.rounds - 1, r)
  }

  function RequestsFor(to: nat, sent: nat, count: nat): set<Request> {
    set i | sent <= i < sent + count :: Request(to, i)
  }

  ghost function Posted(P: Process, r: Rec, sent: nat, count: nat): Process {
    P.(outgoing := P.outgoing - multiset{r}, requests := P.requests + RequestsFor(r.proc, sent, count))
  }

  ghost function Completed(P: Process, x: Request): Process {
    P.(requests := P.requests - {x})
  }

  /** One message of check_incoming_queues; a queue that is complete is filed under its own round. */
  ghost function Took(P: Process, p: nat, source: nat, frame: F.Bytes): Process {
    var (recv, placed) := F.Advance(RecvFrom(P.recvs, source), frame);
    var Q := P.(recvs := P.recvs[source := recv]);
    if placed.Some? && placed.value.round >= 0 then Placed(Q, placed.value.round, AsRec(placed.value, p)) else Q
  }

  ghost function Joined(P: Process): Process {
    P.(barrier := true, entered := P.entered + 1)
  }

  ghost function Gone(P: Process): Process {
    P.(active := false, barrier := false)
  }

  ghost function ProcessAfter(w: Wire, p: nat, a: Act, max: nat): Process
    requires p < |w.procs| && max > 0
  {
    var P := w.procs[p];
    match a
    case BeginRound(queues) => Begun(P, queues)
    case PlaceSame(r) => if P.rounds == 0 then P else PlacedSame(P, r)
    case Post(r) =>
      if P.rounds == 0 then P
      else Posted(P, r, w.channels(p, r.proc).sent, |FramesOf(Parcel(P.rounds - 1, r), max)|)
    case RequestDone(x) => Completed(P, x)
    case TakeFrame(source) =>
      if w.channels(source, p).frames == [] then P else Took(P, p, source, w.channels(source, p).frames[0])
    case JoinBarrier => Joined(P)
    case LeaveBarrier => Gone(P)
    case LeaveCount => P.(active := false)
  }

  // ---------- the wire ----------

  function Append(ch: Channel, frames: seq<F.Bytes>): Channel {
    Channel(ch.sent + |frames|, ch.frames + frames)
  }

  function Advanced(ch: Channel): Channel {
    if ch.frames == [] then ch else ch.(frames := ch.frames[1..])
  }

  ghost function Set(channels: (nat, nat) -> Channel, from: nat, to: nat, ch: Channel): (nat, nat) -> Channel {
    (q: nat, p: nat) => if q == from && p == to then ch else channels(q, p)
  }

  ghost function ChannelsAfter(w: Wire, p: nat, a: Act, max: nat): (nat, nat) -> Channel
    requires p < |w.procs| && max > 0
  {
    match a
    case Post(r) =>
      if w.procs[p].rounds == 0 then w.channels
      else Set(w.channels, p, r.proc,
               Append(w.channels(p, r.proc), FramesOf(Parcel(w.procs[p].rounds - 1, r), max)))
    case TakeFrame(source) => Set(w.channels, source, p, Advanced(w.channels(source, p)))
    case _ => w.channels
  }

  ghost function WireAfter(w: Wire, p: nat, a: Act, max: nat): Wire
    requires p < |w.procs| && max > 0
  {
    Wire(w.procs[p := ProcessAfter(w, p, a, max)], ChannelsAfter(w, p, a, max))
  }

  ghost predicate Idle(P: Process) {
    && P.rounds == 0 && !P.active && P.outgoing == multiset{} && P.requests == {} && P.incoming == map[]
    && P.recvs == map[] && !P.barrier && P.entered == 0 && P.posted == []
    && forall e :: P.arrived(e) == multiset{}
  }

  ghost predicate WireStart(w: Wire) {
    && (forall p :: 0 <= p < |w.procs| ==> Idle(w.procs[p]))
    && forall q, p :: w.channels(q, p) == Channel(0, [])
  }

  ghost predicate WireFollows(c: Config, max: nat, w: Wire, v: Wire)
    requires max > 0
  {
    exists p: nat, a :: CanAct(c, w, p, a) && v == WireAfter(w, p, a, max)
  }

  /** A limit that fits a head; the source's is INT_MAX. */
  ghost predicate IsFrameRun(c: Config, max: nat, states: seq<Wire>) {
    && max >= F.SIZE + F.INFO && ValidConfig(c) && |states| > 0 && WireStart(states[0])
    && (forall b :: c.owner(b) < |states[0].procs|)
    && forall i :: 0 < i < |states| ==> WireFollows(c, max, states[i - 1], states[i])
  }

  // ---------- the same acts as the source makes them ----------

  method CutIntoFrames(k: Parcel, max: nat) returns (frames: seq<F.Bytes>)
    requires max > 0
    ensures frames == FramesOf(k, max)
  {
    var buffer := new F.MemoryBuffer(k.rec.payload, |k.rec.payload|);
    frames := F.SendDifferentRank(k.rec.from, k.rec.to, k.round, buffer, k.rec.blobs, max);
  }

  /** The round bookkeeping of one process; each method is one act of the protocol. */
  class MasterRounds {
    const rank: nat
    var exchangeRound: int
    var flushing: bool
    var outgoing: multiset<Rec>
    var inflightSends: set<Request>
    var incoming: map<nat, Incoming>
    var inflightRecvs: map<nat, F.InFlight>
    var barrier: bool
    ghost var entered: nat
    ghost var posted: seq<multiset<Rec>>
    ghost var arrived: nat -> multiset<Rec>

    ghost predicate Valid()
      reads this
    {
      exchangeRound >= -1
    }

    ghost function View(): Process
      requires Valid()
      reads this
    {
      Process(exchangeRound + 1, flushing, outgoing, inflightSends, incoming, inflightRecvs, barrier, entered, posted,
              arrived)
    }

    constructor (rank: nat)
      ensures Valid() && this.rank == rank && Idle(View())
    {
      this.rank, exchangeRound, flushing, outgoing, inflightSends := rank, -1, false, multiset{}, {};
      incoming, inflightRecvs, barrier, entered, posted, arrived := map[], map[], false, 0, [], _ => multiset{};
    }

    /** The head of flush: drops the last round's queues and moves on. */
    method BeginFlush(queues: multiset<Rec>)
      requires Valid() && !flushing
      modifies this
      ensures Valid() && View() == Begun(old(View()), queues)
    {
      if exchangeRound >= 0 {
        incoming := incoming - {exchangeRound};
      }
      exchangeRound := exchangeRound + 1;
      flushing, barrier, outgoing, posted := true, false, queues, posted + [queues];
    }

    method PlaceIn(round: nat, r: Rec)
      requires Valid()
      modifies this`incoming, this`arrived
      ensures Valid() && View() == Placed(old(View()), round, r)
    {
      var in_ := if round in incoming then incoming[round] else Incoming(multiset{}, 0);
      incoming := incoming[round := Incoming(in_.queues + multiset{r}, in_.received + 1)];
      arrived := Recorded(arrived, round, r);
    }

    method SendSameRank(r: Rec)
      requires Valid() && exchangeRound >= 0 && r in outgoing
      modifies this
      ensures Valid() && View() == PlacedSame(old(View()), r)
    {
      outgoing := outgoing - multiset{r};
      PlaceIn(exchangeRound, r);
    }

    method AddRequests(to: nat, sent: nat, count: nat)
      modifies this`inflightSends
      ensures inflightSends == old(inflightSends) + RequestsFor(to, sent, count)
    {
      for i := 0 to count
        invariant inflightSends == old(inflightSends) + RequestsFor(to, sent, i)
      {
        assert RequestsFor(to, sent, i + 1) == RequestsFor(to, sent, i) + {Request(to, sent + i)};
        inflightSends := inflightSends + {Request(to, sent + i)};
      }
    }

    /** Sends the messages of a queue, each with a request of its own. */
    method SendDifferentRank(r: Rec, sent: nat, max: nat) returns (frames: seq<F.Bytes>)
      requires Valid() && exchangeRound >= 0 && r in outgoing && max > 0
      modifies this`outgoing, this`inflightSends
      ensures Valid() && frames == FramesOf(Parcel(exchangeRound, r), max)
      ensures View() == Posted(old(View()), r, sent, |frames|)
    {
      frames := CutIntoFrames(Parcel(exchangeRound, r), max);
      outgoing := outgoing - multiset{r};
      AddRequests(r.proc, sent, |frames|);
    }

    method Nudge(x: Request, completed: bool)
      requires Valid() && x in inflightSends
      modifies this
      ensures Valid() && View() == if completed then Completed(old(View()), x) else old(View())
    {
      if completed {
        inflightSends := inflightSends - {x};
      }
    }

    /** One message from a source; a completed queue is placed and the state of the source reset. */
    method CheckIncoming(source: nat, frame: F.Bytes)
      requires Valid()
      requires var placed := F.Advance(RecvFrom(inflightRecvs, source), frame).1;
               placed.Some? ==> placed.value.round >= exchangeRound && placed.value.round >= 0
      modifies this
      ensures Valid() && View() == Took(old(View()), rank, source, frame)
    {
      var (recv, placed) := F.Advance(RecvFrom(inflightRecvs, source), frame);
      inflightRecvs := inflightRecvs[source := recv];
      if placed.Some? {
        PlaceIn(placed.value.round, AsRec(placed.value, rank));
      }
    }

    /** The tail of rcomm_exchange's loop: enters the barrier when all is sent, or leaves once it is done. */
    method RemoteTail(barrierDone: bool) returns (done: bool)
      requires Valid()
      modifies this
      ensures Valid() && done == (old(barrier) && barrierDone)
      ensures old(barrier) ==> View() == if barrierDone then Gone(old(View())) else old(View())
      ensures !old(barrier) ==>
                View() == if outgoing == multiset{} && inflightSends == {} then Joined(old(View())) else old(View())
    {
      done := false;
      if barrier {
        if barrierDone {
          done := true;
          flushing, barrier := false, false;
        }
      } else if outgoing == multiset{} && inflightSends == {} {
        barrier := true;
        entered := entered + 1;
      }
    }

    /** The loop condition of the counting flush. */
    method CountedTail(expected: nat) returns (done: bool)
      requires Valid() && exchangeRound >= 0
      modifies this`flushing
      ensures done == (outgoing == multiset{} && inflightSends == {} && ReceivedIn(incoming, exchangeRound) >= expected)
      ensures Valid() && View() == if done then old(View()).(active := false) else old(View())
    {
      var received := if exchangeRound in incoming then incoming[exchangeRound].received else 0;
      done := inflightSends == {} && received >= expected && outgoing == multiset{};
      if done {
        flushing := false;
      }
    }
  }
}
