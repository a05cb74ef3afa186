/** dynamic_foreach together with the iexchange its balancer runs in, one auxiliary block per process: when
    iexchange reports done, load balancing has stopped. */
module DynamicDone {
  import opened Options
  import opened Queues
  import opened LoadBalance
  import opened DynamicProtocol
  import opened DynamicBalance
  import opened DynamicTurns
  import opened DynamicRuns
  import E = IExchangeProtocol
  import S = IExchangeSafety

  // ---------- the two protocols side by side ----------

  /** Every message the balancer enqueues is told apart by a number, which is what the proxy's buffers hold:
      `ids` are those of the blocks under way, `boxes` what each proxy has taken in, `next` a number not
      used yet. */
  datatype Joint = Joint(sys: E.System, world: World, ids: seq<int>, boxes: seq<set<int>>, next: int)

  datatype Pace =
    | Think(a: Act)
    | Ask(target: (int, nat))
    | Tell(dst: nat)
    | Give
    | Take(i: nat, src: int)
    | Open
    | Close
    | Carry(step: E.Step)

  /** Acts that neither send nor receive a block, begin or end a callback. */
  predicate Thinks(a: Act) {
    a.ExecutorGrab? || a.ExecutorStep? || a.Request? || a.Aim? || a.BalancerGrab? || a.Decide? || a.ReceiveNotice?
  }

  predicate OnlyCarries(step: E.Step) {
    !step.BeginCallback? && !step.Enqueue? && !step.Return?
  }

  ghost function Destination(P: Proc): nat {
    if P.aim.Some? && P.aim.value.1.procRank >= 0 then P.aim.value.1.procRank else 0
  }

  /** None of the blocks under way is in the box: everything taken in has been dequeued. */
  predicate Emptied(j: Joint, p: nat)
    requires p < |j.boxes|
  {
    forall i :: 0 <= i < |j.ids| ==> j.ids[i] !in j.boxes[p]
  }

  ghost predicate CanPace(k: Setting, j: Joint, p: nat, m: Pace) {
    && p < |j.world.procs| == |j.sys.procs| == |j.boxes| && |j.ids| == |j.world.transit| && k.nprocs > 0 &&
    match m
    case Think(a) => Thinks(a) && Can(k, j.world, p, a)
    case Ask(target) => E.Enabled(j.sys, p, E.Enqueue(target, j.next))
    case Tell(dst) => Can(k, j.world, p, SendNotice(dst)) && E.Enabled(j.sys, p, E.Enqueue((dst, dst), j.next))
    case Give =>
      && Can(k, j.world, p, SendHeld)
      && E.Enabled(j.sys, p, E.Enqueue((Destination(j.world.procs[p]), Destination(j.world.procs[p])), j.next))
    case Take(i, src) =>
      Can(k, j.world, p, ReceiveBlock(i, src)) && j.sys.procs[p].place.Running? && j.ids[i] in j.boxes[p]
    case Open => Can(k, j.world, p, BeginCallback) && E.Enabled(j.sys, p, E.BeginCallback(p))
    case Close =>
      Can(k, j.world, p, EndCallback) && E.Enabled(j.sys, p, E.Return(j.world.procs[p].free == [])) && Emptied(j, p)
    case Carry(step) => OnlyCarries(step) && E.Enabled(j.sys, p, step) && (step.Refill? ==> Emptied(j, p))
  }

  /** The part of a move that is a step of iexchange, and the part that is an act of load balancing. */
  ghost function StepOf(k: Setting, j: Joint, p: nat, m: Pace): Option<E.Step>
    requires p < |j.world.procs|
  {
    match m
    case Ask(target) => Some(E.Enqueue(target, j.next))
    case Tell(dst) => Some(E.Enqueue((dst, dst), j.next))
    case Give => Some(E.Enqueue((Destination(j.world.procs[p]), Destination(j.world.procs[p])), j.next))
    case Open => Some(E.BeginCallback(p))
    case Close => Some(E.Return(j.world.procs[p].free == []))
    case Carry(step) => Some(step)
    case _ => None
  }

  ghost function ActOf(m: Pace): Option<Act> {
    match m
    case Think(a) => Some(a)
    case Tell(dst) => Some(SendNotice(dst))
    case Give => Some(SendHeld)
    case Take(i, src) => Some(ReceiveBlock(i, src))
    case Open => Some(BeginCallback)
    case Close => Some(EndCallback)
    case _ => None
  }

  ghost function BoxAfter(j: Joint, p: nat, m: Pace): set<int>
    requires p < |j.sys.procs| == |j.boxes|
  {
    match m
    case Take(i, _) => if i < |j.ids| then j.boxes[p] - {j.ids[i]} else j.boxes[p]
    case Close => {}
    case Carry(step) =>
      if step.Refill? then {}
      else if step.PopFront? && step.i < |j.sys.procs[p].incoming| then
        j.boxes[p] + (set x | x in j.sys.procs[p].incoming[step.i].payload)
      else j.boxes[p]
    case _ => j.boxes[p]
  }

  ghost function Paced(k: Setting, j: Joint, p: nat, m: Pace): Joint
    requires p < |j.world.procs| == |j.sys.procs| == |j.boxes| && k.nprocs > 0
  {
    Joint(if StepOf(k, j, p, m).Some? then E.Apply(j.sys, p, StepOf(k, j, p, m).value) else j.sys,
          if ActOf(m).Some? then Next(k, j.world, p, ActOf(m).value) else j.world,
          if m.Give? then j.ids + [j.next]
          else if m.Take? && m.i < |j.ids| then j.ids[..m.i] + j.ids[m.i + 1..] else j.ids,
          j.boxes[p := BoxAfter(j, p, m)],
          if m.Ask? || m.Tell? || m.Give? then j.next + 1 else j.next)
  }

  ghost predicate JointStart(k: Setting, j: Joint) {
    && ValidSetting(k) && Initial(k, j.world) && E.Init(j.sys) && |j.sys.procs| == |j.world.procs| == |j.boxes|
    && j.ids == [] && (forall p :: 0 <= p < |j.boxes| ==> j.boxes[p] == {} && j.sys.procs[p].blocks == {p})
  }

  ghost predicate Paces(k: Setting, j: Joint, j': Joint) {
    exists p: nat, m :: CanPace(k, j, p, m) && j' == Paced(k, j, p, m)
  }

  ghost predicate IsJointRun(k: Setting, joints: seq<Joint>) {
    |joints| > 0 && JointStart(k, joints[0]) && forall i :: 0 < i < |joints| ==> Paces(k, joints[i - 1], joints[i])
  }

  // ---------- each side is a run of its own ----------

  lemma EnabledStep(k: Setting, j: Joint, p: nat, m: Pace)
    requires CanPace(k, j, p, m) && StepOf(k, j, p, m).Some?
    ensures E.Enabled(j.sys, p, StepOf(k, j, p, m).value)
  {
  }

  lemma EnabledAct(k: Setting, j: Joint, p: nat, m: Pace)
    requires CanPace(k, j, p, m) && ActOf(m).Some?
    ensures Can(k, j.world, p, ActOf(m).value)
  {
  }

  lemma MoreStates(states: seq<E.System>, p: nat, step: E.Step)
    requires E.IsRun(states) && E.Enabled(states[|states| - 1], p, step)
    ensures E.IsRun(states + [E.Apply(states[|states| - 1], p, step)])
  {
    assert E.Next(states[|states| - 1], E.Apply(states[|states| - 1], p, step));
  }

  /** The steps of iexchange in a joint run are a run of iexchange. */
  lemma {:induction false} SystemRun(k: Setting, joints: seq<Joint>, n: nat) returns (states: seq<E.System>)
    requires IsJointRun(k, joints) && n < |joints|
    ensures E.IsRun(states) && states[|states| - 1] == joints[n].sys
  {
    if n == 0 {
      states := [joints[0].sys];
    } else {
      states := SystemRun(k, joints, n - 1);
      assert Paces(k, joints[n - 1], joints[n]);
      var p: nat, m :| CanPace(k, joints[n - 1], p, m) && joints[n] == Paced(k, joints[n - 1], p, m);
      if StepOf(k, joints[n - 1], p, m).Some? {
        EnabledStep(k, joints[n - 1], p, m);
        MoreStates(states, p, StepOf(k, joints[n - 1], p, m).value);
        states := states + [joints[n].sys];
      }
    }
  }

  /** The run of load balancing behind j goes on to j'. */
  lemma MoreWorlds(k: Setting, worlds: seq<World>, acts: seq<(nat, Act)>, j: Joint, j': Joint)
    returns (worlds': seq<World>, acts': seq<(nat, Act)>)
    requires IsBalanceRun(k, worlds, acts) && worlds[|acts|] == j.world && Paces(k, j, j')
    ensures IsBalanceRun(k, worlds', acts') && worlds'[0] == worlds[0] && worlds'[|acts'|] == j'.world
  {
    var p: nat, m :| CanPace(k, j, p, m) && j' == Paced(k, j, p, m);
    if ActOf(m).Some? {
      EnabledAct(k, j, p, m);
      worlds', acts' := Extend(k, worlds, acts, p, ActOf(m).value);
    } else {
      worlds', acts' := worlds, acts;
    }
  }

  /** The acts of load balancing in a joint run are a run of load balancing. */
  lemma {:induction false} WorldRun(k: Setting, joints: seq<Joint>, n: nat)
    returns (worlds: seq<World>, acts: seq<(nat, Act)>)
    requires IsJointRun(k, joints) && n < |joints|
    ensures IsBalanceRun(k, worlds, acts) && worlds[0] == joints[0].world && worlds[|acts|] == joints[n].world
  {
    if n == 0 {
      worlds, acts := [joints[0].world], [];
    } else {
      worlds, acts := WorldRun(k, joints, n - 1);
      assert Paces(k, joints[n - 1], joints[n]);
      worlds, acts := MoreWorlds(k, worlds, acts, joints[n - 1], joints[n]);
    }
  }

  // ---------- what a process is doing on both sides ----------

  predicate InProxy(place: E.Place) {
    place.Filling? || place.Running?
  }

  ghost predicate Beside(P: E.Process, B: Proc, p: nat, box: set<int>) {
    && (B.inCallback <==> InProxy(P.place)) && (p in P.open <==> !B.done)
    && (InProxy(P.place) || P.place.Flushing? ==> P.place.block == p) && (box != {} ==> InProxy(P.place))
  }

  lemma BesideStep(P: E.Process, Q: E.Process, B: Proc, p: nat, net: seq<E.Packet>, step: E.Step, box: set<int>,
                   box': set<int>)
    requires Beside(P, B, p, box) && E.Guard(P, p, net, step) && Q == E.Local(P, net, step)
    requires OnlyCarries(step) || step.Enqueue?
    requires box' != {} ==> box != {} || step.PopFront?
    ensures Beside(Q, B, p, box')
  {
  }

  lemma BesideAct(k: Setting, P: E.Process, w: World, p: nat, a: Act, box: set<int>, box': set<int>)
    requires Can(k, w, p, a) && k.nprocs > 0 && Beside(P, w.procs[p], p, box) && !a.BeginCallback? && !a.EndCallback?
    requires box' <= box
    ensures Beside(P, After(k, w, p, w.procs[p], a), p, box')
  {
  }

  lemma BesideOpen(k: Setting, j: Joint, p: nat)
    requires CanPace(k, j, p, Open) && Beside(j.sys.procs[p], j.world.procs[p], p, j.boxes[p])
    ensures var j' := Paced(k, j, p, Open); Beside(j'.sys.procs[p], j'.world.procs[p], p, j'.boxes[p])
  {
  }

  lemma BesideClose(k: Setting, j: Joint, p: nat)
    requires CanPace(k, j, p, Close) && Beside(j.sys.procs[p], j.world.procs[p], p, j.boxes[p])
    ensures var j' := Paced(k, j, p, Close); Beside(j'.sys.procs[p], j'.world.procs[p], p, j'.boxes[p])
  {
  }

  lemma BesidePace(k: Setting, j: Joint, p: nat, m: Pace)
    requires CanPace(k, j, p, m) && Beside(j.sys.procs[p], j.world.procs[p], p, j.boxes[p])
    ensures var j' := Paced(k, j, p, m); Beside(j'.sys.procs[p], j'.world.procs[p], p, j'.boxes[p])
  {
    if m.Open? {
      BesideOpen(k, j, p);
    } else if m.Close? {
      BesideClose(k, j, p);
    } else {
      var P, B, box := j.sys.procs[p], j.world.procs[p], j.boxes[p];
      if StepOf(k, j, p, m).Some? {
        EnabledStep(k, j, p, m);
        var step := StepOf(k, j, p, m).value;
        BesideStep(P, E.Local(P, j.sys.net, step), B, p, j.sys.net, step, box, BoxAfter(j, p, m));
      }
      if ActOf(m).Some? {
        EnabledAct(k, j, p, m);
        BesideAct(k, Paced(k, j, p, m).sys.procs[p], j.world, p, ActOf(m).value, box, BoxAfter(j, p, m));
      }
    }
  }

  // ---------- where the messages are ----------

  function Pending(P: E.Process): E.ProxyOut {
    if P.place.Filling? || P.place.Running? || P.place.Flushing? then P.place.pending else map[]
  }

  ghost predicate InPending(P: E.Process, x: int) {
    exists t :: t in Pending(P) && x in Pending(P)[t]
  }

  ghost predicate InRecords(records: multiset<Rec>, x: int) {
    exists r :: r in records && x in r.payload
  }

  /** A step leaves what is pending where it is, copies it out, or adds to it. */
  lemma PendingKept(P: E.Process, p: nat, net: seq<E.Packet>, step: E.Step, x: int)
    requires E.Guard(P, p, net, step) && InPending(P, x)
    ensures InPending(E.Local(P, net, step), x) || InRecords(E.Sent(P, step), x)
  {
    var t :| t in Pending(P) && x in Pending(P)[t];
    var Q := E.Local(P, net, step);
    if step.CopyOut? && step.target == t {
      assert Rec(P.place.block, t.0, t.1, P.place.pending[t], []) in E.Sent(P, step);
    } else {
      assert t in Pending(Q) && x in Pending(Q)[t];
    }
  }

  lemma PendingFrom(P: E.Process, p: nat, net: seq<E.Packet>, step: E.Step, x: int)
    requires E.Guard(P, p, net, step) && InPending(E.Local(P, net, step), x)
    ensures InPending(P, x) || (step.Enqueue? && x == step.x)
  {
    var Q := E.Local(P, net, step);
    var t :| t in Pending(Q) && x in Pending(Q)[t];
    if !(step.Enqueue? && x == step.x) {
      assert t in Pending(P) && x in Pending(P)[t];
    }
  }

  lemma SentFrom(P: E.Process, step: E.Step, x: int)
    requires InRecords(E.Sent(P, step), x)
    ensures InPending(P, x)
  {
    var r :| r in E.Sent(P, step) && x in r.payload;
    assert step.target in Pending(P);
  }

  lemma EnqueuedNow(P: E.Process, p: nat, net: seq<E.Packet>, step: E.Step)
    requires E.Guard(P, p, net, step) && step.Enqueue?
    ensures InPending(E.Local(P, net, step), step.x)
  {
    var Q := E.Local(P, net, step);
    assert step.target in Pending(Q) && Pending(Q)[step.target][|Pending(Q)[step.target]| - 1] == step.x;
  }

  /** The numbers in use are below the next one. */
  ghost predicate Below(j: Joint) {
    && (forall q, x :: 0 <= q < |j.sys.procs| && InPending(j.sys.procs[q], x) ==> x < j.next)
    && (forall x :: InRecords(j.sys.enqueued, x) ==> x < j.next)
    && (forall x :: x in j.ids ==> x < j.next)
  }

  ghost predicate Somewhere(j: Joint, x: int) {
    (exists q :: 0 <= q < |j.sys.procs| && InPending(j.sys.procs[q], x)) || InRecords(j.sys.enqueued, x)
  }

  ghost predicate InBox(j: Joint, x: int) {
    exists q :: 0 <= q < |j.boxes| && x in j.boxes[q]
  }

  predicate Distinct(ids: seq<int>) {
    forall i, l :: 0 <= i < l < |ids| ==> ids[i] != ids[l]
  }

  ghost predicate AllBeside(j: Joint) {
    && |j.sys.procs| == |j.world.procs| == |j.boxes|
    && forall p :: 0 <= p < |j.boxes| ==> Beside(j.sys.procs[p], j.world.procs[p], p, j.boxes[p])
  }

  /** A block under way is pending in a proxy or in a record; once the record is delivered, it is in a box. */
  ghost predicate JointInv(j: Joint) {
    && AllBeside(j) && |j.ids| == |j.world.transit| && Distinct(j.ids) && S.Conserved(j.sys) && Below(j)
    && (forall x :: x in j.ids ==> Somewhere(j, x))
    && (forall x :: x in j.ids && InRecords(j.sys.delivered, x) ==> InBox(j, x))
  }

  lemma DeliveredWasEnqueued(s: E.System, x: int)
    requires S.Conserved(s) && InRecords(s.delivered, x)
    ensures InRecords(s.enqueued, x)
  {
    var r :| r in s.delivered && x in r.payload;
    assert s.enqueued[r] >= s.delivered[r];
  }

  lemma InSum(a: multiset<Rec>, b: multiset<Rec>, x: int)
    ensures InRecords(a + b, x) <==> InRecords(a, x) || InRecords(b, x)
  {
    if InRecords(a, x) { var r :| r in a && x in r.payload; assert r in a + b; }
    if InRecords(b, x) { var r :| r in b && x in r.payload; assert r in a + b; }
  }

  // ---------- every move keeps track ----------

  lemma IdsAfter(k: Setting, j: Joint, p: nat, m: Pace, x: int)
    requires CanPace(k, j, p, m)
    ensures x in Paced(k, j, p, m).ids ==> x in j.ids || (m.Give? && x == j.next)
    ensures m.Take? && Distinct(j.ids) && x in Paced(k, j, p, m).ids ==> x != j.ids[m.i]
  {
    if m.Take? && Distinct(j.ids) { OthersStay(j.ids, m.i, x); }
  }

  lemma OthersStay(ids: seq<int>, i: nat, x: int)
    requires i < |ids| && Distinct(ids)
    ensures x in ids[..i] + ids[i + 1..] ==> x in ids && x != ids[i]
    ensures Distinct(ids[..i] + ids[i + 1..])
  {
    var less := ids[..i] + ids[i + 1..];
    assert forall l :: 0 <= l < |less| ==> less[l] == ids[if l < i then l else l + 1];
  }

  lemma IdsDistinct(k: Setting, j: Joint, p: nat, m: Pace)
    requires CanPace(k, j, p, m) && Distinct(j.ids) && forall x :: x in j.ids ==> x < j.next
    ensures Distinct(Paced(k, j, p, m).ids) && |Paced(k, j, p, m).ids| == |Paced(k, j, p, m).world.transit|
  {
    if m.Take? {
      OthersStay(j.ids, m.i, 0);
      assert Paced(k, j, p, m).ids == j.ids[..m.i] + j.ids[m.i + 1..];
    } else if m.Give? {
      FreshStays(j.ids, j.next);
    }
  }

  lemma FreshStays(ids: seq<int>, x: int)
    requires Distinct(ids) && x !in ids
    ensures Distinct(ids + [x])
  {
  }

  /** The iexchange side of a move. */
  lemma SysAfter(k: Setting, j: Joint, p: nat, m: Pace)
    requires CanPace(k, j, p, m)
    ensures var j' := Paced(k, j, p, m);
            if StepOf(k, j, p, m).None? then j'.sys == j.sys
            else E.Enabled(j.sys, p, StepOf(k, j, p, m).value) && j'.sys == E.Apply(j.sys, p, StepOf(k, j, p, m).value)
    ensures forall step :: StepOf(k, j, p, m) == Some(step) && step.Enqueue? ==>
              step.x == j.next && Paced(k, j, p, m).next == j.next + 1
    ensures Paced(k, j, p, m).next >= j.next
    ensures m.Give? ==> StepOf(k, j, p, m).Some? && StepOf(k, j, p, m).value.Enqueue?
  {
  }

  lemma PendingBelow(s: E.System, p: nat, step: E.Step, q: nat, x: int, n: int)
    requires E.Enabled(s, p, step) && q < |s.procs| && InPending(E.Apply(s, p, step).procs[q], x)
    requires (forall i, y :: 0 <= i < |s.procs| && InPending(s.procs[i], y) ==> y < n)
        && (step.Enqueue? ==> step.x == n)
    ensures x < n || (step.Enqueue? && x == n)
  {
    if q == p { PendingFrom(s.procs[p], p, s.net, step, x); }
  }

  lemma EnqueuedBelow(s: E.System, p: nat, step: E.Step, x: int, n: int)
    requires E.Enabled(s, p, step) && InRecords(E.Apply(s, p, step).enqueued, x)
    requires forall i, y :: 0 <= i < |s.procs| && InPending(s.procs[i], y) ==> y < n
    requires forall y :: InRecords(s.enqueued, y) ==> y < n
    ensures x < n
  {
    InSum(s.enqueued, E.Sent(s.procs[p], step), x);
    if !InRecords(s.enqueued, x) { SentFrom(s.procs[p], step, x); }
  }

  lemma BelowPace(k: Setting, j: Joint, p: nat, m: Pace)
    requires CanPace(k, j, p, m) && Below(j)
    ensures Below(Paced(k, j, p, m))
  {
    var j' := Paced(k, j, p, m);
    SysAfter(k, j, p, m);
    var step := StepOf(k, j, p, m);
    forall q, x | 0 <= q < |j'.sys.procs| && InPending(j'.sys.procs[q], x) ensures x < j'.next {
      if step.Some? { PendingBelow(j.sys, p, step.value, q, x, j.next); }
    }
    forall x | InRecords(j'.sys.enqueued, x) ensures x < j'.next {
      if step.Some? { EnqueuedBelow(j.sys, p, step.value, x, j.next); }
    }
    forall x | x in j'.ids ensures x < j'.next {
      IdsAfter(k, j, p, m, x);
    }
  }

  lemma SomewhereStep(s: E.System, p: nat, step: E.Step, x: int)
    requires E.Enabled(s, p, step)
    requires (exists q :: 0 <= q < |s.procs| && InPending(s.procs[q], x)) || InRecords(s.enqueued, x)
    ensures var u := E.Apply(s, p, step);
            (exists q :: 0 <= q < |u.procs| && InPending(u.procs[q], x)) || InRecords(u.enqueued, x)
  {
    var u := E.Apply(s, p, step);
    InSum(s.enqueued, E.Sent(s.procs[p], step), x);
    if !InRecords(s.enqueued, x) {
      var q :| 0 <= q < |s.procs| && InPending(s.procs[q], x);
      if q == p {
        PendingKept(s.procs[p], p, s.net, step, x);
        assert InPending(u.procs[p], x) || InRecords(u.enqueued, x);
      } else {
        assert u.procs[q] == s.procs[q];
      }
    }
  }

  lemma SomewherePace(k: Setting, j: Joint, p: nat, m: Pace, x: int)
    requires CanPace(k, j, p, m) && x in Paced(k, j, p, m).ids && (x in j.ids ==> Somewhere(j, x))
    ensures Somewhere(Paced(k, j, p, m), x)
  {
    var j' := Paced(k, j, p, m);
    SysAfter(k, j, p, m);
    IdsAfter(k, j, p, m, x);
    var step := StepOf(k, j, p, m);
    if x in j.ids {
      if step.Some? { SomewhereStep(j.sys, p, step.value, x); }
    } else {
      EnqueuedNow(j.sys.procs[p], p, j.sys.net, step.value);
      assert InPending(j'.sys.procs[p], x);
    }
  }

  /** A block's message stays in its box until it is dequeued. */
  lemma StaysInBox(k: Setting, j: Joint, p: nat, m: Pace, x: int)
    requires CanPace(k, j, p, m) && Distinct(j.ids) && x in j.ids && x in Paced(k, j, p, m).ids && InBox(j, x)
    ensures InBox(Paced(k, j, p, m), x)
  {
    var j' := Paced(k, j, p, m);
    IdsAfter(k, j, p, m, x);
    var q :| 0 <= q < |j.boxes| && x in j.boxes[q];
    if q == p { assert !Emptied(j, p); }
    assert x in j'.boxes[q];
  }

  lemma TakenInBox(k: Setting, j: Joint, p: nat, m: Pace, x: int)
    requires CanPace(k, j, p, m) && StepOf(k, j, p, m).Some?
    requires InRecords(E.Taken(j.sys.procs[p], StepOf(k, j, p, m).value), x)
    ensures InBox(Paced(k, j, p, m), x)
  {
    assert x in Paced(k, j, p, m).boxes[p];
  }

  lemma BoxPace(k: Setting, j: Joint, p: nat, m: Pace, x: int)
    requires CanPace(k, j, p, m) && JointInv(j)
    requires x in Paced(k, j, p, m).ids && InRecords(Paced(k, j, p, m).sys.delivered, x)
    ensures InBox(Paced(k, j, p, m), x)
  {
    SysAfter(k, j, p, m);
    IdsAfter(k, j, p, m, x);
    var step := StepOf(k, j, p, m);
    if step.Some? { InSum(j.sys.delivered, E.Taken(j.sys.procs[p], step.value), x); }
    if InRecords(j.sys.delivered, x) {
      DeliveredWasEnqueued(j.sys, x);
      StaysInBox(k, j, p, m, x);
    } else {
      TakenInBox(k, j, p, m, x);
    }
  }

  lemma AllBesidePace(k: Setting, j: Joint, p: nat, m: Pace)
    requires CanPace(k, j, p, m) && AllBeside(j)
    ensures AllBeside(Paced(k, j, p, m))
  {
    BesidePace(k, j, p, m);
  }

  lemma ConservedPace(k: Setting, j: Joint, p: nat, m: Pace)
    requires CanPace(k, j, p, m) && S.Conserved(j.sys)
    ensures S.Conserved(Paced(k, j, p, m).sys)
  {
    SysAfter(k, j, p, m);
    if StepOf(k, j, p, m).Some? { S.StepConserves(j.sys, p, StepOf(k, j, p, m).value); }
  }

  lemma JointStep(k: Setting, j: Joint, p: nat, m: Pace)
    requires CanPace(k, j, p, m) && JointInv(j)
    ensures JointInv(Paced(k, j, p, m))
  {
    var j' := Paced(k, j, p, m);
    IdsDistinct(k, j, p, m);
    BelowPace(k, j, p, m);
    AllBesidePace(k, j, p, m);
    ConservedPace(k, j, p, m);
    forall x | x in j'.ids ensures Somewhere(j', x) {
      SomewherePace(k, j, p, m, x);
    }
    forall x | x in j'.ids && InRecords(j'.sys.delivered, x) ensures InBox(j', x) {
      BoxPace(k, j, p, m, x);
    }
  }

  // ---------- every joint run ----------

  lemma JointStartInv(k: Setting, j: Joint)
    requires JointStart(k, j)
    ensures JointInv(j)
  {
    var states := [j.sys];
    S.RunConserves(states, 0);
    forall p | 0 <= p < |j.boxes|
      ensures Beside(j.sys.procs[p], j.world.procs[p], p, j.boxes[p]) && Pending(j.sys.procs[p]) == map[]
    {
      assert E.InitProcess(j.sys.procs[p]) && InitialProc(j.world.procs[p], p) && j.boxes[p] == {};
    }
  }

  lemma {:induction false} JointRunInv(k: Setting, joints: seq<Joint>, n: nat)
    requires IsJointRun(k, joints) && n < |joints|
    ensures JointInv(joints[n])
  {
    if n == 0 {
      JointStartInv(k, joints[0]);
    } else {
      JointRunInv(k, joints, n - 1);
      assert Paces(k, joints[n - 1], joints[n]);
      var p: nat, m :| CanPace(k, joints[n - 1], p, m) && joints[n] == Paced(k, joints[n - 1], p, m);
      JointStep(k, joints[n - 1], p, m);
    }
  }

  /** A quiet system that has delivered everything has no block under way and no process in a callback. */
  lemma QuietMeansStopped(j: Joint)
    requires JointInv(j) && S.Quiet(j.sys) && j.sys.delivered == j.sys.enqueued
    ensures Stopped(j.world)
  {
    forall q | 0 <= q < |j.boxes|
      ensures j.boxes[q] == {} && !j.world.procs[q].inCallback && j.world.procs[q].done
      ensures Pending(j.sys.procs[q]) == map[]
    {
      assert S.Idle(j.sys.procs[q]) && Beside(j.sys.procs[q], j.world.procs[q], q, j.boxes[q]);
    }
    forall x ensures x !in j.ids {
      assert x in j.ids ==> Somewhere(j, x);
      assert !InBox(j, x);
    }
    SomeIn(j.ids);
  }

  lemma SomeIn<A>(s: seq<A>)
    ensures s == [] || exists x :: x in s
  {
    if s != [] { assert s[0] in s; }
  }

  /** When iexchange reports done on any process, load balancing has stopped: no block is under way, and
      every process is between callbacks, the last of which said it had no free block. */
  lemma DoneMeansStopped(k: Setting, joints: seq<Joint>, n: nat, p: nat)
    requires IsJointRun(k, joints) && n < |joints| && p < |joints[n].sys.procs| && joints[n].sys.procs[p].ctl.state == 3
    ensures Stopped(joints[n].world)
  {
    JointRunInv(k, joints, n);
    var states := SystemRun(k, joints, n);
    S.DoneMeansQuiet(states, |states| - 1, p);
    S.DoneMeansDelivered(states, |states| - 1, p);
    QuietMeansStopped(joints[n]);
  }

  /** Then, with the executors idle, every block has had exactly one turn, on exactly one process; and every
      command has run on it exactly once if every call got the entries of the block whose turn it was. */
  lemma OnceDone(k: Setting, joints: seq<Joint>, n: nat, p: nat, g: int, c: nat) returns (at: nat)
    requires IsJointRun(k, joints) && n < |joints| && p < |joints[n].sys.procs| && joints[n].sys.procs[p].ctl.state == 3
    requires ExecutorsIdle(joints[n].world) && Places(joints[0].world, g) == 1 && c < k.commands
    ensures var procs := joints[n].world.procs;
            && at < |procs| && CountRun(procs[at].executed, g) == 1 && g in procs[at].lids
            && (forall q :: 0 <= q < |procs| && q != at ==> CountRun(procs[q].executed, g) == 0)
    ensures NeverSends(k) ==> AllFaithful(joints[n].world)
    ensures AllFaithful(joints[n].world) ==>
              var procs := joints[n].world.procs;
              && CountRight(procs[at].calls, g, c) == 1
              && forall q :: 0 <= q < |procs| && q != at ==> CountRight(procs[q].calls, g, c) == 0
  {
    DoneMeansStopped(k, joints, n, p);
    var worlds, acts := WorldRun(k, joints, n);
    at := EveryTurnOnce(k, worlds, acts, |worlds| - 1, g);
    if NeverSends(k) { NothingSentNothingWrong(k, worlds, acts, |worlds| - 1); }
    if AllFaithful(joints[n].world) {
      var other := EveryBlockOnce(k, worlds, acts, |worlds| - 1, g, c);
      RightIsTurn(k, worlds, acts, |worlds| - 1, g, c, at, other);
    }
  }

  lemma RightIsTurn(k: Setting, worlds: seq<World>, acts: seq<(nat, Act)>, i: nat, g: int, c: nat, at: nat, other: nat)
    requires IsBalanceRun(k, worlds, acts) && i < |worlds| && ExecutorsIdle(worlds[i]) && AllFaithful(worlds[i])
    requires c < k.commands && at < |worlds[i].procs| && other < |worlds[i].procs|
    requires CountRun(worlds[i].procs[at].executed, g) == 1 && CountRight(worlds[i].procs[other].calls, g, c) == 1
    requires forall q :: 0 <= q < |worlds[i].procs| && q != other ==> CountRight(worlds[i].procs[q].calls, g, c) == 0
    ensures at == other
  {
    RunCalls(k, worlds, acts, i, at, g, c);
    RightIsCall(worlds[i].procs[at].calls, g, c);
  }
}
