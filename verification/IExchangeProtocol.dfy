/** One run of iexchange over N single-threaded processes, as a step relation. A process step is one
    counter update together with the queue, request or network change next to it, so other processes
    may run between any two updates. Queues are single-part and carry no blobs. */
module IExchangeProtocol {
  import opened IExchangeControl
  import opened Options
  import opened Queues

  /** A synchronous send whose matching receive has not started yet. */
  datatype Packet = Packet(src: nat, dst: nat, id: nat, rec: Rec)

  /** Outgoing buffers of a proxy, keyed by (gid, proc). */
  type ProxyOut = map<(int, nat), seq<int>>

  /** Where a process is: between actions of its loop; inside check_incoming_queues; inside a callback. */
  datatype Place =
    | Loop
    | Probed(src: nat)
    | Holding(rec: Rec)
    | Filling(block: int, seen: set<int>, pending: ProxyOut)
    | Running(block: int, pending: ProxyOut)
    | Flushing(block: int, pending: ProxyOut)

  /** `open` are the blocks whose last callback did not report done; `sends` the ids of the requests
      in the in-flight list; `entered` counts barriers entered and `votes` lists all-reduce inputs. */
  datatype Process = Process(ctl: Counters, entered: nat, votes: seq<bool>,
                             blocks: set<int>, open: set<int>,
                             outgoing: seq<Rec>, incoming: seq<Rec>, sends: set<nat>, place: Place)

  /** `enqueued` and `delivered` record what proxies copied out and what they took in. */
  datatype System = System(procs: seq<Process>, net: seq<Packet>,
                           enqueued: multiset<Rec>, delivered: multiset<Rec>)

  datatype Step =
    | SendSameRank(i: nat)
    | SendDifferentRank(i: nat, id: nat)
    | Nudge(id: nat)
    | Probe(src: nat)
    | Receive(i: nat)
    | PlaceRecord
    | BeginCallback(block: int)
    | PopFront(i: nat)
    | EndFill
    | Refill
    | Enqueue(target: (int, nat), x: int)
    | Return(done: bool)
    | CopyOut(target: (int, nat))
    | EndCallback
    | ControlStep(barrierDone: bool, verdict: Option<bool>)

  function RemoveAt<T>(s: seq<T>, i: nat): seq<T>
    requires i < |s|
  {
    s[..i] + s[i + 1..]
  }

  /** Entry i is at the front of the queue between its two blocks. */
  predicate FrontOfQueue(s: seq<Rec>, i: nat) {
    i < |s| && forall j :: 0 <= j < i ==> s[j].from != s[i].from || s[j].to != s[i].to
  }

  /** Messages from one source do not overtake each other: i is the oldest packet from its source. */
  predicate NextPacket(net: seq<Packet>, i: nat, src: nat, dst: nat) {
    && i < |net| && net[i].src == src && net[i].dst == dst
    && forall j :: 0 <= j < i ==> net[j].src != src || net[j].dst != dst
  }

  predicate Matched(net: seq<Packet>, src: nat, id: nat) {
    forall k :: 0 <= k < |net| ==> net[k].src != src || net[k].id != id
  }

  /** A barrier test may succeed only after every process has entered that barrier; an all-reduce
      test only after every process has voted, and then it reports the OR of the votes. */
  ghost predicate CollectiveAxioms(s: System, p: nat, barrierDone: bool, verdict: Option<bool>)
    requires p < |s.procs|
  {
    && (barrierDone ==> forall q :: 0 <= q < |s.procs| ==> s.procs[p].entered <= s.procs[q].entered)
    && (verdict.Some? ==>
          var k := |s.procs[p].votes|;
          && k > 0
          && (forall q :: 0 <= q < |s.procs| ==> k <= |s.procs[q].votes|)
          && (verdict.value <==> exists q :: 0 <= q < |s.procs| && s.procs[q].votes[k - 1]))
  }

  /** The step's own guard in the process that takes it; a process that has left its loop takes none. */
  ghost predicate Guard(P: Process, p: nat, net: seq<Packet>, step: Step) {
    P.ctl.state != 3 &&
    match step
    case SendSameRank(i) =>
      P.place.Loop? && FrontOfQueue(P.outgoing, i) && P.outgoing[i].proc == p
    case SendDifferentRank(i, id) =>
      P.place.Loop? && FrontOfQueue(P.outgoing, i) && P.outgoing[i].proc != p && id !in P.sends
    case Nudge(id) =>
      P.place.Loop? && id in P.sends && Matched(net, p, id)
    case Probe(src) =>
      P.place.Loop? && exists k :: 0 <= k < |net| && net[k].src == src && net[k].dst == p
    case Receive(i) =>
      P.place.Probed? && NextPacket(net, i, P.place.src, p)
    case PlaceRecord =>
      P.place.Holding?
    case BeginCallback(b) =>
      P.place.Loop? && b in P.blocks && (b in P.open || exists r :: r in P.incoming && r.to == b)
    case PopFront(i) =>
      && P.place.Filling? && FrontOfQueue(P.incoming, i)
      && P.incoming[i].to == P.place.block && P.incoming[i].from !in P.place.seen
    case EndFill =>
      P.place.Filling? && forall r :: r in P.incoming && r.to == P.place.block ==> r.from in P.place.seen
    case Refill => P.place.Running?
    case Enqueue(_, _) => P.place.Running?
    case Return(_) => P.place.Running?
    case CopyOut(target) => P.place.Flushing? && target in P.place.pending
    case EndCallback => P.place.Flushing? && P.place.pending == map[]
    case ControlStep(_, _) => P.place.Loop?
  }

  ghost predicate Enabled(s: System, p: nat, step: Step) {
    && p < |s.procs| && Guard(s.procs[p], p, s.net, step)
    && (step.ControlStep? ==> CollectiveAxioms(s, p, step.barrierDone, step.verdict))
  }

  /** What the step does to the process that takes it; `net` is the network it sees. */
  ghost function Local(P: Process, net: seq<Packet>, step: Step): Process {
    match step
    case SendSameRank(i) =>
      if i < |P.outgoing| then
        P.(outgoing := RemoveAt(P.outgoing, i), incoming := P.incoming + [P.outgoing[i]]) else P
    case SendDifferentRank(i, id) =>
      if i < |P.outgoing| then
        P.(outgoing := RemoveAt(P.outgoing, i), sends := P.sends + {id}) else P
    case Nudge(id) =>
      P.(sends := P.sends - {id}, ctl := AddWork(P.ctl, -1))
    case Probe(src) =>
      P.(place := Probed(src), ctl := AddWork(P.ctl, 1))
    case Receive(i) =>
      if i < |net| then P.(place := Holding(net[i].rec)) else P
    case PlaceRecord =>
      if P.place.Holding? then P.(incoming := P.incoming + [P.place.rec], place := Loop) else P
    case BeginCallback(b) =>
      P.(place := Filling(b, {}, map[]), ctl := AddWork(P.ctl, 1))
    case PopFront(i) =>
      if P.place.Filling? && i < |P.incoming| then
        P.(incoming := RemoveAt(P.incoming, i), ctl := AddWork(P.ctl, -1),
           place := P.place.(seen := P.place.seen + {P.incoming[i].from}))
      else P
    case EndFill =>
      if P.place.Filling? then P.(place := Running(P.place.block, P.place.pending)) else P
    case Refill =>
      if P.place.Running? then P.(place := Filling(P.place.block, {}, P.place.pending)) else P
    case Enqueue(t, x) =>
      if P.place.Running? then
        var sofar := if t in P.place.pending then P.place.pending[t] else [];
        P.(place := Running(P.place.block, P.place.pending[t := sofar + [x]]))
      else P
    case Return(done) =>
      if P.place.Running? then
        var b := P.place.block;
        var Q := P.(place := Flushing(b, P.place.pending));
        if b in P.open && done then Q.(open := P.open - {b}, ctl := AddWork(P.ctl, -1))
        else if b !in P.open && !done then Q.(open := P.open + {b}, ctl := AddWork(P.ctl, 1))
        else Q
      else P
    case CopyOut(t) =>
      if P.place.Flushing? && t in P.place.pending then
        P.(outgoing := P.outgoing + [Rec(P.place.block, t.0, t.1, P.place.pending[t], [])],
           ctl := AddWork(P.ctl, 1),
           place := Flushing(P.place.block, P.place.pending - {t}))
      else P
    case EndCallback =>
      P.(place := Loop, ctl := AddWork(P.ctl, -1))
    case ControlStep(barrierDone, verdict) =>
      var (ctl, action) := Control(P.ctl, barrierDone, verdict);
      match action
      case Nothing => P.(ctl := ctl)
      case EnterBarrier => P.(ctl := ctl, entered := P.entered + 1)
      case Vote(d) => P.(ctl := ctl, votes := P.votes + [d])
  }

  ghost function NetAfter(P: Process, p: nat, net: seq<Packet>, step: Step): seq<Packet> {
    match step
    case SendDifferentRank(i, id) =>
      if i < |P.outgoing| then net + [Packet(p, P.outgoing[i].proc, id, P.outgoing[i])] else net
    case Receive(i) => if i < |net| then RemoveAt(net, i) else net
    case _ => net
  }

  /** The record a step copies out of a proxy, and the one it takes into a proxy. */
  ghost function Sent(P: Process, step: Step): multiset<Rec> {
    if step.CopyOut? && P.place.Flushing? && step.target in P.place.pending then
      multiset{Rec(P.place.block, step.target.0, step.target.1, P.place.pending[step.target], [])}
    else multiset{}
  }

  ghost function Taken(P: Process, step: Step): multiset<Rec> {
    if step.PopFront? && P.place.Filling? && step.i < |P.incoming| then multiset{P.incoming[step.i]} else multiset{}
  }

  ghost function Apply(s: System, p: nat, step: Step): System
    requires p < |s.procs|
  {
    var P := s.procs[p];
    System(s.procs[p := Local(P, s.net, step)], NetAfter(P, p, s.net, step),
           s.enqueued + Sent(P, step), s.delivered + Taken(P, step))
  }

  /** The state right after `iex.add_work(size())` on every process, with a quiet network. */
  ghost predicate Init(s: System) {
    && |s.procs| > 0 && s.net == [] && s.enqueued == multiset{} && s.delivered == multiset{}
    && forall p :: 0 <= p < |s.procs| ==> InitProcess(s.procs[p])
  }

  ghost predicate InitProcess(P: Process) {
    && P.ctl == AddWork(Counters(0, false, 0), |P.blocks|)
    && P.entered == 0 && P.votes == [] && P.open == P.blocks
    && P.outgoing == [] && P.incoming == [] && P.sends == {} && P.place == Loop
  }

  /** states[0], states[1], ... is a run: each state follows from the last by an enabled step. */
  ghost predicate IsRun(states: seq<System>) {
    && |states| > 0 && Init(states[0])
    && forall i :: 0 < i < |states| ==> Next(states[i - 1], states[i])
  }

  ghost predicate Next(s: System, t: System) {
    exists p: nat, step :: Enabled(s, p, step) && t == Apply(s, p, step)
  }
}
