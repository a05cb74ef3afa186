/** Any sequence of exchange rounds over N processes, as a step relation. A remote round runs the NBX
    protocol: synchronous sends, then a nonblocking barrier. The other rounds count: a process leaves
    once it has received as many queues as it expects. Here a queue is one message; FrameProtocol cuts it
    into as many as it takes, and FrameSafety shows that these rounds are what that comes to. */
module ExchangeProtocol {
  import opened Queues
  import opened Schedules

  /** A message on its way: the round it was sent in and its queue. Requests are told apart by what they
      carry; identical ones are interchangeable. */
  datatype Parcel = Parcel(round: nat, rec: Rec)

  /** `IncomingRound`: the queues received for a round and their number. */
  datatype Incoming = Incoming(queues: multiset<Rec>, received: nat)

  /** `rounds` is exchange_round_ + 1; `active` says the process is inside flush; `barrier` that it has
      entered this round's barrier and `entered` how many barriers it entered. `posted` records what each
      round sent, `arrived` what was received for each round. */
  datatype Node = Node(rounds: nat, active: bool, outgoing: multiset<Rec>, sends: multiset<Rec>,
                       incoming: map<nat, Incoming>, barrier: bool, entered: nat,
                       posted: seq<multiset<Rec>>, arrived: nat -> multiset<Rec>)

  datatype Net = Net(nodes: seq<Node>, packets: multiset<Parcel>)

  /** What is fixed for the whole run: the process of each block, which rounds are remote, who sends to
      whom in the others, and the count each process expects. */
  datatype Config = Config(blocks: nat, owner: int -> nat, locals: nat -> seq<int>,
                           remote: nat -> bool, edges: nat -> ((int, int) -> bool), expected: (nat, nat) -> nat)

  /** The count of a counting round is the number of queues sent to the process. */
  ghost predicate ValidConfig(c: Config) {
    && (forall p, b :: b in c.locals(p) ==> 0 <= b < c.blocks && c.owner(b) == p)
    && (forall b :: 0 <= b < c.blocks ==> b in c.locals(c.owner(b)))
    && (forall p, e :: !c.remote(e) ==> c.expected(p, e) == |EdgesInto(c.edges(e), c.blocks, c.locals(p))|)
  }

  ghost predicate IsEdge(c: Config, e: nat, f: int, t: int) {
    0 <= f < c.blocks && 0 <= t < c.blocks && c.edges(e)(f, t)
  }

  /** What a process may send in a round: queues of its own blocks; in a counting round exactly one queue
      along each edge, addressed to the process of the target block. */
  ghost predicate MayPost(c: Config, p: nat, e: nat, queues: multiset<Rec>) {
    && (forall r :: r in queues ==> c.owner(r.from) == p)
    && (!c.remote(e) ==>
          && (forall r :: r in queues ==> queues[r] == 1 && IsEdge(c, e, r.from, r.to) && r.proc == c.owner(r.to))
          && (forall r, r' :: r in queues && r' in queues && r.from == r'.from && r.to == r'.to ==> r == r')
          && (forall f, t :: IsEdge(c, e, f, t) && c.owner(f) == p ==>
              exists r :: r in queues && r.from == f && r.to == t))
  }

  datatype Move =
    | Begin(queues: multiset<Rec>)
    | SendSame(rec: Rec)
    | SendOther(rec: Rec)
    | Complete(rec: Rec)
    | Receive(parcel: Parcel)
    | EnterBarrier
    | LeaveRemote
    | LeaveCounted

  ghost predicate CanMove(c: Config, s: Net, p: nat, m: Move) {
    p < |s.nodes| &&
    var P := s.nodes[p];
    match m
    case Begin(queues) => !P.active && MayPost(c, p, P.rounds, queues)
    case SendSame(r) => P.active && r in P.outgoing && r.proc == p
    case SendOther(r) => P.active && r in P.outgoing && r.proc != p
    case Complete(r) =>
      // a synchronous send completes only after its receive has started
      P.active && P.rounds > 0 && r in P.sends
          && (c.remote(P.rounds - 1) ==> s.packets[Parcel(P.rounds - 1, r)] < P.sends[r])
    case Receive(k) => P.active && k in s.packets && k.rec.proc == p
    case EnterBarrier =>
      P.active && P.rounds > 0 && c.remote(P.rounds - 1) && !P.barrier && P.outgoing == multiset{}
          && P.sends == multiset{}
    case LeaveRemote =>
      // a nonblocking barrier completes only after all processes have entered it
      P.active && P.barrier && forall q :: 0 <= q < |s.nodes| ==> P.entered <= s.nodes[q].entered
    case LeaveCounted =>
      P.active && P.rounds > 0 && !c.remote(P.rounds - 1) && P.outgoing == multiset{} && P.sends == multiset{}
      && ReceivedIn(P.incoming, P.rounds - 1) >= c.expected(p, P.rounds - 1)
  }

  function ReceivedIn(incoming: map<nat, Incoming>, e: nat): nat {
    if e in incoming then incoming[e].received else 0
  }

  function QueuesIn(incoming: map<nat, Incoming>, e: nat): multiset<Rec> {
    if e in incoming then incoming[e].queues else multiset{}
  }

  function Filed(incoming: map<nat, Incoming>, e: nat, r: Rec): map<nat, Incoming> {
    incoming[e := Incoming(QueuesIn(incoming, e) + multiset{r}, ReceivedIn(incoming, e) + 1)]
  }

  ghost function Recorded(arrived: nat -> multiset<Rec>, e: nat, r: Rec): nat -> multiset<Rec> {
    (x: nat) => if x == e then arrived(e) + multiset{r} else arrived(x)
  }

  ghost function Take(P: Node, e: nat, r: Rec): Node {
    P.(incoming := Filed(P.incoming, e, r), arrived := Recorded(P.arrived, e, r))
  }

  function WithoutRound(incoming: map<nat, Incoming>, rounds: nat): map<nat, Incoming> {
    if rounds == 0 then incoming else incoming - {rounds - 1}
  }

  ghost function NodeAfter(P: Node, m: Move): Node {
    match m
    case Begin(queues) =>
      P.(rounds := P.rounds + 1, active := true, outgoing := queues, posted := P.posted + [queues], barrier := false,
         incoming := WithoutRound(P.incoming, P.rounds))
    case SendSame(r) => if P.rounds == 0 then P else Take(P.(outgoing := P.outgoing - multiset{r}), P.rounds - 1, r)
    case SendOther(r) => P.(outgoing := P.outgoing - multiset{r}, sends := P.sends + multiset{r})
    case Complete(r) => P.(sends := P.sends - multiset{r})
    case Receive(k) => Take(P, k.round, k.rec)
    case EnterBarrier => P.(barrier := true, entered := P.entered + 1)
    case LeaveRemote => P.(active := false, barrier := false)
    case LeaveCounted => P.(active := false)
  }

  ghost function PacketsAfter(P: Node, packets: multiset<Parcel>, m: Move): multiset<Parcel> {
    match m
    case SendOther(r) => if P.rounds == 0 then packets else packets + multiset{Parcel(P.rounds - 1, r)}
    case Receive(k) => packets - multiset{k}
    case _ => packets
  }

  ghost function Moved(s: Net, p: nat, m: Move): Net
    requires p < |s.nodes|
  {
    Net(s.nodes[p := NodeAfter(s.nodes[p], m)], PacketsAfter(s.nodes[p], s.packets, m))
  }

  ghost predicate Start(s: Net) {
    && s.packets == multiset{}
    && forall p :: 0 <= p < |s.nodes| ==> Fresh(s.nodes[p])
  }

  ghost predicate Fresh(P: Node) {
    && P.rounds == 0 && !P.active && P.outgoing == multiset{} && P.sends == multiset{} && P.incoming == map[]
    && !P.barrier && P.entered == 0 && P.posted == [] && forall e :: P.arrived(e) == multiset{}
  }
}
