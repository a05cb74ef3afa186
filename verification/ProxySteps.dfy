/** A callback under iexchange, once as the proxy's methods and once as steps of the protocol: both leave
    the same queues and move the counter by the same units. */
module ProxySteps {
  import opened IExchangeControl
  import opened IExchangeProtocol
  import opened Queues
  import X = ProxyQueues

  // ---------- the queue between two blocks ----------

  function Picked(s: seq<Rec>, pick: Rec -> bool): seq<X.Buffer> {
    if s == [] then [] else
    var n := |s| - 1;
    Picked(s[..n], pick) + (if pick(s[n]) then [s[n].payload] else [])
  }

  lemma PickedAppend(s: seq<Rec>, r: Rec, pick: Rec -> bool)
    ensures Picked(s + [r], pick) == Picked(s, pick) + (if pick(r) then [r.payload] else [])
  {
    assert (s + [r])[..|s|] == s;
  }

  lemma {:induction false} NonePicked(s: seq<Rec>, pick: Rec -> bool)
    ensures Picked(s, pick) == [] <==> forall r :: r in s ==> !pick(r)
  {
    if s != [] {
      NonePicked(s[..|s| - 1], pick);
      assert s == s[..|s| - 1] + [s[|s| - 1]];
    }
  }

  lemma {:induction false} PickedConcat(a: seq<Rec>, b: seq<Rec>, pick: Rec -> bool)
    ensures Picked(a + b, pick) == Picked(a, pick) + Picked(b, pick)
    decreases |b|
  {
    if b == [] {
      assert a + b == a;
    } else {
      var n := |b| - 1;
      PickedConcat(a, b[..n], pick);
      assert a + b == (a + b[..n]) + [b[n]];
      PickedAppend(a + b[..n], b[n], pick);
    }
  }

  lemma Around(before: seq<Rec>, r: Rec, after: seq<Rec>, pick: Rec -> bool)
    requires pick(r) ==> Picked(before, pick) == []
    ensures Picked(before + [r] + after, pick)
         == if pick(r) then [r.payload] + Picked(before + after, pick) else Picked(before + after, pick)
  {
    PickedAppend(before, r, pick);
    PickedConcat(before + [r], after, pick);
    PickedConcat(before, after, pick);
    Nothing(Picked(before, pick), Picked(after, pick), r.payload);
  }

  lemma Nothing<A>(a: seq<A>, b: seq<A>, x: A)
    ensures (a + []) + b == a + b && (a == [] ==> (a + [x]) + b == [x] + (a + b))
  {
  }

  lemma TailOf<A>(x: A, a: seq<A>)
    ensures [x] + a != [] && ([x] + a)[1..] == a
  {
  }

  lemma SplitAround<A>(s: seq<A>, i: nat)
    requires i < |s|
    ensures s == s[..i] + [s[i]] + s[i + 1..]
  {
  }

  /** Without the first one that is picked, or any one that is not. */
  lemma PickedRemove(s: seq<Rec>, i: nat, pick: Rec -> bool)
    requires i < |s| && (pick(s[i]) ==> forall j :: 0 <= j < i ==> !pick(s[j]))
    ensures pick(s[i]) ==> Picked(s, pick) != []
    ensures Picked(RemoveAt(s, i), pick) == if pick(s[i]) then Picked(s, pick)[1..] else Picked(s, pick)
  {
    NonePicked(s[..i], pick);
    SplitAround(s, i);
    Around(s[..i], s[i], s[i + 1..], pick);
    TailOf(s[i].payload, Picked(s[..i] + s[i + 1..], pick));
  }

  ghost function Between(from: int, to: int): Rec -> bool {
    (r: Rec) => r.from == from && r.to == to
  }

  ghost function Towards(from: int, target: X.Target): Rec -> bool {
    (r: Rec) => r.from == from && r.to == target.0 && r.proc as int == target.1
  }

  ghost function InQueue(P: Process, from: int, block: int): seq<X.Buffer> {
    Picked(P.incoming, Between(from, block))
  }

  ghost function OutQueue(P: Process, block: int, target: X.Target): seq<X.Buffer> {
    Picked(P.outgoing, Towards(block, target))
  }

  // ---------- steps of one process in a row ----------

  ghost function Stepped(P: Process, net: seq<Packet>, steps: seq<Step>): Process
    decreases |steps|
  {
    if steps == [] then P else Stepped(Local(P, net, steps[0]), net, steps[1..])
  }

  ghost predicate Runs(P: Process, p: nat, net: seq<Packet>, steps: seq<Step>)
    decreases |steps|
  {
    steps != [] ==> Guard(P, p, net, steps[0]) && Runs(Local(P, net, steps[0]), p, net, steps[1..])
  }

  /** Fills the proxy: fronts are popped until every block with a queue has been seen. */
  lemma {:induction false} Pops(P: Process, p: nat, net: seq<Packet>, steps: seq<Step>, b: int, from: int)
    requires P.place.Filling? && P.place.block == b && Runs(P, p, net, steps)
    requires forall k :: 0 <= k < |steps| ==> steps[k].PopFront?
    requires var Q := Stepped(P, net, steps); Guard(Q, p, net, EndFill)
    ensures var Q := Stepped(P, net, steps);
            && Q.place == P.place.(seen := Q.place.seen) && Q.outgoing == P.outgoing && Q.open == P.open
            && Q.ctl.work == P.ctl.work - |steps| && |Q.place.seen| == |P.place.seen| + |steps|
            && (from in Q.place.seen <==> from in P.place.seen || InQueue(P, from, b) != [])
            && InQueue(Q, from, b)
            == if from !in P.place.seen && InQueue(P, from, b) != [] then InQueue(P, from, b)[1..]
                else InQueue(P, from, b)
    decreases |steps|
  {
    if steps == [] {
      NonePicked(P.incoming, Between(from, b));
    } else {
      var i := steps[0].i;
      PickedRemove(P.incoming, i, Between(from, b));
      Pops(Local(P, net, steps[0]), p, net, steps[1..], b, from);
    }
  }

  function ItemOf(step: Step): X.Item
    requires step.Enqueue?
  {
    ((step.target.0, step.target.1), [step.x])
  }

  function Items(steps: seq<Step>): seq<X.Item>
    requires forall k :: 0 <= k < |steps| ==> steps[k].Enqueue?
  {
    seq(|steps|, k requires 0 <= k < |steps| => ItemOf(steps[k]))
  }

  lemma {:induction false} AppendedFirst(sofar: map<X.Target, X.Buffer>, x: X.Item, rest: seq<X.Item>)
    ensures X.AllAppended(sofar, [x] + rest) == X.AllAppended(X.Appended(sofar, x.0, x.1), rest)
    decreases |rest|
  {
    if rest == [] {
      assert [x] + rest == [x] && [x][..0] == [];
      assert X.AllAppended(sofar, [x][..0]) == sofar;
    } else {
      var n := |rest| - 1;
      AppendedFirst(sofar, x, rest[..n]);
      assert ([x] + rest)[..n + 1] == [x] + rest[..n];
    }
  }

  /** Enqueues: the pending buffers are those of the proxy. */
  lemma {:induction false} Enqueues(P: Process, p: nat, net: seq<Packet>, steps: seq<Step>)
    requires P.place.Running? && Runs(P, p, net, steps) && forall k :: 0 <= k < |steps| ==> steps[k].Enqueue?
    ensures var Q := Stepped(P, net, steps);
            && Q == P.(place := Q.place) && Q.place.Running? && Q.place.block == P.place.block
            && Q.place.pending == X.AllAppended(P.place.pending, Items(steps))
    decreases |steps|
  {
    if steps != [] {
      var more := Local(P, net, steps[0]);
      Enqueues(more, p, net, steps[1..]);
      assert Items(steps) == [ItemOf(steps[0])] + Items(steps[1..]);
      AppendedFirst(P.place.pending, ItemOf(steps[0]), Items(steps[1..]));
      assert more.place.pending == X.Appended(P.place.pending, ItemOf(steps[0]).0, ItemOf(steps[0]).1);
    }
  }

  /** Copying out, in any order, until nothing is pending: one queue more for every target. */
  lemma {:induction false} CopiesOut(P: Process, p: nat, net: seq<Packet>, steps: seq<Step>, b: int, t: X.Target)
    requires P.place.Flushing? && P.place.block == b && Runs(P, p, net, steps)
    requires forall k :: 0 <= k < |steps| ==> steps[k].CopyOut?
    requires Stepped(P, net, steps).place.Flushing? && Stepped(P, net, steps).place.pending == map[]
    ensures var Q := Stepped(P, net, steps);
            && Q.incoming == P.incoming && Q.open == P.open && Q.ctl.work == P.ctl.work + |P.place.pending|
            && OutQueue(Q, b, t)
            == OutQueue(P, b, t) + if t in P.place.pending then [P.place.pending[t]] else []
    decreases |steps|
  {
    if steps == [] {
      assert OutQueue(P, b, t) + [] == OutQueue(P, b, t);
    } else {
      var u := steps[0].target;
      var more := Local(P, net, steps[0]);
      PickedAppend(P.outgoing, Rec(b, u.0, u.1, P.place.pending[u], []), Towards(b, t));
      FewerPending(P.place.pending, u);
      CopiesOut(more, p, net, steps[1..], b, t);
    }
  }

  lemma FewerPending(pending: ProxyOut, u: (int, nat))
    requires u in pending
    ensures |pending - {u}| == |pending| - 1
  {
    assert (pending - {u}).Keys == pending.Keys - {u};
    assert |pending - {u}| == |(pending - {u}).Keys| && |pending| == |pending.Keys|;
  }

  // ---------- a whole callback ----------

  ghost function FromQueues(queues: map<int, seq<X.Buffer>>, from: int): seq<X.Buffer> {
    if from in queues then queues[from] else []
  }

  ghost predicate InAlikeAt(P: Process, b: int, incoming: map<int, seq<X.Buffer>>, from: int) {
    InQueue(P, from, b) == FromQueues(incoming, from)
  }

  ghost predicate InAlike(P: Process, b: int, incoming: map<int, seq<X.Buffer>>) {
    forall from :: InAlikeAt(P, b, incoming, from)
  }

  /** The master's queues of block b and its counter, as the process keeps them. */
  ghost predicate Alike(P: Process, b: int, incoming: map<int, seq<X.Buffer>>, outgoing: map<X.Target, seq<X.Buffer>>,
                        work: int)
  {
    && P.ctl.work == work && InAlike(P, b, incoming)
    && forall t :: OutQueue(P, b, t) == X.QueuesFor(outgoing, t)
  }

  /** The parts of a callback: the proxy is filled, the callback enqueues, and the proxy is copied out. */
  datatype Parts = Parts(pops: seq<Step>, enqueues: seq<Step>, done: bool, copies: seq<Step>)

  ghost predicate Shaped(c: Parts) {
    && (forall k :: 0 <= k < |c.pops| ==> c.pops[k].PopFront?)
    && (forall k :: 0 <= k < |c.enqueues| ==> c.enqueues[k].Enqueue?)
    && forall k :: 0 <= k < |c.copies| ==> c.copies[k].CopyOut?
  }

  ghost function Filled(P: Process, net: seq<Packet>, b: int, c: Parts): Process {
    Stepped(Local(P, net, BeginCallback(b)), net, c.pops)
  }

  ghost function Enqueued(P: Process, net: seq<Packet>, b: int, c: Parts): Process {
    Stepped(Local(Filled(P, net, b, c), net, EndFill), net, c.enqueues)
  }

  ghost function Copied(P: Process, net: seq<Packet>, b: int, c: Parts): Process {
    Stepped(Local(Enqueued(P, net, b, c), net, Return(c.done)), net, c.copies)
  }

  /** One callback of block b, without refills, from its beginning to its end. */
  ghost predicate IsCallback(P: Process, p: nat, net: seq<Packet>, b: int, c: Parts) {
    && Shaped(c) && Guard(P, p, net, BeginCallback(b))
    && Runs(Local(P, net, BeginCallback(b)), p, net, c.pops) && Guard(Filled(P, net, b, c), p, net, EndFill)
    && Runs(Local(Filled(P, net, b, c), net, EndFill), p, net, c.enqueues)
    && Guard(Enqueued(P, net, b, c), p, net, Return(c.done))
    && Runs(Local(Enqueued(P, net, b, c), net, Return(c.done)), p, net, c.copies)
    && Guard(Copied(P, net, b, c), p, net, EndCallback)
  }

  /** What the change of the done status adds to the counter. */
  ghost function DoneChange(P: Process, b: int, done: bool): int {
    if b in P.open && done then -1 else if b !in P.open && !done then 1 else 0
  }

  /** For this sender: its queue has lost its front, and it has been seen if there was one. */
  ghost predicate PoppedAt(F: Process, b: int, incoming: map<int, seq<X.Buffer>>, from: int) {
    && F.place.Filling? && InAlikeAt(F, b, X.WithoutFronts(incoming), from)
    && (from in F.place.seen <==> from in X.Fronts(incoming).Keys)
  }

  lemma PopsEach(B: Process, p: nat, net: seq<Packet>, steps: seq<Step>, b: int, incoming: map<int, seq<X.Buffer>>)
    requires B.place == Filling(b, {}, map[]) && Runs(B, p, net, steps)
        && Guard(Stepped(B, net, steps), p, net, EndFill)
    requires (forall k :: 0 <= k < |steps| ==> steps[k].PopFront?) && InAlike(B, b, incoming)
    ensures forall from :: PoppedAt(Stepped(B, net, steps), b, incoming, from)
  {
    forall from ensures PoppedAt(Stepped(B, net, steps), b, incoming, from) {
      assert InAlikeAt(B, b, incoming, from);
      PopsAt(B, p, net, steps, b, incoming, from);
    }
  }

  lemma AllSeen(F: Process, b: int, incoming: map<int, seq<X.Buffer>>)
    requires forall from :: PoppedAt(F, b, incoming, from)
    ensures F.place.Filling? && F.place.seen == X.Fronts(incoming).Keys && |F.place.seen| == |X.Fronts(incoming)|
    ensures InAlike(F, b, X.WithoutFronts(incoming))
  {
    assert PoppedAt(F, b, incoming, 0);
    var fronts := X.Fronts(incoming).Keys;
    forall from ensures InAlikeAt(F, b, X.WithoutFronts(incoming), from) {
      assert PoppedAt(F, b, incoming, from);
    }
    forall from ensures from in F.place.seen <==> from in fronts {
      assert PoppedAt(F, b, incoming, from);
    }
    SameSize(F.place.seen, X.Fronts(incoming));
  }

  /** All of the proxy's fill: every sender's front is in the proxy, for one unit each. */
  lemma PopsAll(B: Process, p: nat, net: seq<Packet>, steps: seq<Step>, b: int, incoming: map<int, seq<X.Buffer>>)
    requires B.place == Filling(b, {}, map[]) && Runs(B, p, net, steps)
        && Guard(Stepped(B, net, steps), p, net, EndFill)
    requires (forall k :: 0 <= k < |steps| ==> steps[k].PopFront?) && InAlike(B, b, incoming)
    ensures var F := Stepped(B, net, steps);
            && F.place == Filling(b, X.Fronts(incoming).Keys, map[]) && F.open == B.open && F.outgoing == B.outgoing
            && F.ctl.work == B.ctl.work - |X.Fronts(incoming)|
    ensures InAlike(Stepped(B, net, steps), b, X.WithoutFronts(incoming))
  {
    Pops(B, p, net, steps, b, 0);
    PopsEach(B, p, net, steps, b, incoming);
    AllSeen(Stepped(B, net, steps), b, incoming);
  }

  lemma SameSize<A, B>(s: set<A>, m: map<A, B>)
    requires forall x :: x in s <==> x in m.Keys
    ensures s == m.Keys && |s| == |m|
  {
    assert s == m.Keys && |m| == |m.Keys|;
  }

  lemma FrontOf(incoming: map<int, seq<X.Buffer>>, from: int)
    ensures from in X.Fronts(incoming).Keys <==> FromQueues(incoming, from) != []
    ensures FromQueues(X.WithoutFronts(incoming), from)
         == if FromQueues(incoming, from) == [] then [] else FromQueues(incoming, from)[1..]
  {
  }

  lemma PopsAt(B: Process, p: nat, net: seq<Packet>, steps: seq<Step>, b: int, incoming: map<int, seq<X.Buffer>>,
          from: int)
    requires B.place == Filling(b, {}, map[]) && Runs(B, p, net, steps)
        && Guard(Stepped(B, net, steps), p, net, EndFill)
    requires forall k :: 0 <= k < |steps| ==> steps[k].PopFront?
    requires InAlikeAt(B, b, incoming, from)
    ensures PoppedAt(Stepped(B, net, steps), b, incoming, from)
  {
    Pops(B, p, net, steps, b, from);
    FrontOf(incoming, from);
  }

  lemma FilledIs(P: Process, p: nat, net: seq<Packet>, b: int, c: Parts, incoming: map<int, seq<X.Buffer>>)
    requires IsCallback(P, p, net, b, c) && InAlike(P, b, incoming)
    ensures var F := Filled(P, net, b, c);
            && F.place == Filling(b, X.Fronts(incoming).Keys, map[]) && F.open == P.open && F.outgoing == P.outgoing
            && F.ctl.work == P.ctl.work + 1 - |X.Fronts(incoming)|
    ensures InAlike(Filled(P, net, b, c), b, X.WithoutFronts(incoming))
  {
    var B := Local(P, net, BeginCallback(b));
    forall from ensures InAlikeAt(B, b, incoming, from) {
      assert InAlikeAt(P, b, incoming, from);
    }
    PopsAll(B, p, net, c.pops, b, incoming);
  }

  lemma PendingLeaves(pending: map<X.Target, X.Buffer>, items: seq<X.Item>, t: X.Target)
    requires pending == X.AllAppended(map[], items)
    ensures |pending| == |X.Targets(items)|
    ensures (if t in pending then [pending[t]] else []) == X.LeftFor([items], t)
  {
    X.FreshBytes(items);
    X.OneCall(items, t);
  }

  lemma ReturnIs(E: Process, net: seq<Packet>, b: int, done: bool)
    requires E.place.Running? && E.place.block == b
    ensures var R := Local(E, net, Return(done));
            && R.place == Flushing(b, E.place.pending) && R.incoming == E.incoming && R.outgoing == E.outgoing
            && R.ctl.work == E.ctl.work + DoneChange(E, b, done)
  {
  }

  lemma EnqueuedIs(P: Process, p: nat, net: seq<Packet>, b: int, c: Parts, F: Process)
    requires IsCallback(P, p, net, b, c) && F == Filled(P, net, b, c)
    requires F.place.Filling? && F.place.block == b && F.place.pending == map[]
    ensures var E := Enqueued(P, net, b, c);
            && E == F.(place := E.place) && E.place.Running? && E.place.block == b
            && E.place.pending == X.AllAppended(map[], Items(c.enqueues))
  {
    Enqueues(Local(F, net, EndFill), p, net, c.enqueues);
  }

  lemma CopiedIs(P: Process, p: nat, net: seq<Packet>, b: int, c: Parts, F: Process, t: X.Target)
    requires IsCallback(P, p, net, b, c) && F == Filled(P, net, b, c)
    requires F.place.Filling? && F.place.block == b && F.place.pending == map[]
    ensures var Q, items := Copied(P, net, b, c), Items(c.enqueues);
            && Q.incoming == F.incoming
            && Q.ctl.work == F.ctl.work + DoneChange(F, b, c.done) + |X.Targets(items)|
            && OutQueue(Q, b, t) == OutQueue(F, b, t) + X.LeftFor([items], t)
  {
    var E := Enqueued(P, net, b, c);
    EnqueuedIs(P, p, net, b, c, F);
    PendingLeaves(E.place.pending, Items(c.enqueues), t);
    ReturnIs(E, net, b, c.done);
    CopiesOut(Local(E, net, Return(c.done)), p, net, c.copies, b, t);
  }

  /** Whatever the proxy class does to the master's queues in a callback that enqueues these items, the
      steps of the protocol do: the same queues are left, and the counter moves by the same units, apart
      from the one for a change of the done status. */
  lemma CallbackAlike(P: Process, p: nat, net: seq<Packet>, b: int, c: Parts, incoming: map<int, seq<X.Buffer>>,
                      outgoing: map<X.Target, seq<X.Buffer>>, after: map<X.Target, seq<X.Buffer>>)
    requires IsCallback(P, p, net, b, c) && Alike(P, b, incoming, outgoing, P.ctl.work)
    requires X.Leaves(outgoing, after, [Items(c.enqueues)])
    ensures Alike(Local(Copied(P, net, b, c), net, EndCallback), b, X.WithoutFronts(incoming), after,
                  P.ctl.work - |X.Fronts(incoming)| + |X.Targets(Items(c.enqueues))| + DoneChange(P, b, c.done))
  {
    var F, Q := Filled(P, net, b, c), Copied(P, net, b, c);
    var E := Local(Q, net, EndCallback);
    FilledIs(P, p, net, b, c, incoming);
    forall t ensures OutQueue(E, b, t) == X.QueuesFor(after, t) {
      CopiedIs(P, p, net, b, c, F, t);
      assert X.LeavesFor(outgoing, after, [Items(c.enqueues)], t);
      assert OutQueue(P, b, t) == X.QueuesFor(outgoing, t) && OutQueue(E, b, t) == OutQueue(Q, b, t);
    }
    CopiedIs(P, p, net, b, c, F, (0, 0));
    forall from ensures InAlikeAt(E, b, X.WithoutFronts(incoming), from) {
      assert InAlikeAt(F, b, X.WithoutFronts(incoming), from);
    }
  }
}
