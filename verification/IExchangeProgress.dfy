/** iexchange can end: every run can be continued until all processes are done, exactly if all queues under way are
    addressed to existing blocks. */
module IExchangeProgress {
  import opened Counting
  import opened IExchangeControl
  import opened IExchangeProtocol
  import opened IExchangeSafety
  import opened Options
  import opened Queues

  // ---------- what is under way ----------

  predicate CarriesRec(s: seq<Rec>, to: int, proc: nat) {
    exists i :: 0 <= i < |s| && s[i].to == to && s[i].proc == proc
  }

  /** The process has a queue for block `to` on process `proc`, or a buffer that will become one. */
  ghost predicate Carries(P: Process, to: int, proc: nat) {
    || CarriesRec(P.outgoing, to, proc) || CarriesRec(P.incoming, to, proc)
    || (P.place.Holding? && P.place.rec.to == to && P.place.rec.proc == proc)
    || ((P.place.Filling? || P.place.Running? || P.place.Flushing?) && (to, proc) in P.place.pending)
  }

  ghost predicate NetCarries(net: seq<Packet>, to: int, proc: nat) {
    exists k :: 0 <= k < |net| && net[k].rec.to == to && net[k].rec.proc == proc
  }

  ghost predicate UnderWay(s: System, to: int, proc: nat) {
    NetCarries(s.net, to, proc) || exists p :: 0 <= p < |s.procs| && Carries(s.procs[p], to, proc)
  }

  ghost predicate IsBlock(s: System, to: int, proc: nat) {
    proc < |s.procs| && to in s.procs[proc].blocks
  }

  /** Everything under way is addressed to an existing block. */
  ghost predicate Deliverable(s: System) {
    forall to, proc :: UnderWay(s, to, proc) ==> IsBlock(s, to, proc)
  }

  // ---------- places ----------

  predicate InCallback(place: Place) {
    place.Filling? || place.Running? || place.Flushing?
  }

  ghost predicate PacketFor(net: seq<Packet>, src: nat, dst: nat) {
    exists k :: 0 <= k < |net| && net[k].src == src && net[k].dst == dst
  }

  /** Only a process's own blocks are not done or in a callback, and what it has probed for is there. */
  ghost predicate SettledAt(P: Process, p: nat, net: seq<Packet>) {
    && P.open <= P.blocks && (InCallback(P.place) ==> P.place.block in P.blocks)
    && (P.place.Probed? ==> PacketFor(net, P.place.src, p))
  }

  ghost predicate Settled(s: System) {
    forall p :: 0 <= p < |s.procs| ==> SettledAt(s.procs[p], p, s.net)
  }

  lemma LocalSettled(P: Process, p: nat, net: seq<Packet>, step: Step)
    requires SettledAt(P, p, net) && Guard(P, p, net, step)
    ensures SettledAt(Local(P, net, step), p, NetAfter(P, p, net, step))
    ensures Local(P, net, step).blocks == P.blocks
  {
    if step.Probe? {
      assert PacketFor(net, step.src, p);
    }
  }

  /** A step takes no packet but one for the process that takes it. */
  lemma PacketStays(P: Process, p: nat, net: seq<Packet>, step: Step, src: nat, dst: nat)
    requires Guard(P, p, net, step) && PacketFor(net, src, dst) && (step.Receive? ==> dst != p)
    ensures PacketFor(NetAfter(P, p, net, step), src, dst)
  {
    var k :| 0 <= k < |net| && net[k].src == src && net[k].dst == dst;
    var after := NetAfter(P, p, net, step);
    if step.Receive? {
      assert after[if k < step.i then k else k - 1] == net[k];
    } else {
      assert after[k] == net[k];
    }
  }

  lemma SettledStep(s: System, p: nat, step: Step)
    requires Settled(s) && Enabled(s, p, step)
    ensures Settled(Apply(s, p, step))
  {
    var t := Apply(s, p, step);
    LocalSettled(s.procs[p], p, s.net, step);
    forall q | 0 <= q < |t.procs| ensures SettledAt(t.procs[q], q, t.net) {
      assert SettledAt(s.procs[q], q, s.net);
      if q != p && s.procs[q].place.Probed? {
        PacketStays(s.procs[p], p, s.net, step, s.procs[q].place.src, q);
      }
    }
  }

  /** What is known of every state of a run. */
  ghost predicate Sound(s: System) {
    Inv(s) && Addressed(s) && Settled(s)
  }

  lemma SoundStep(s: System, p: nat, step: Step)
    requires Sound(s) && Enabled(s, p, step)
    ensures Sound(Apply(s, p, step))
  {
    StepInv(s, p, step);
    StepAddressed(s, p, step);
    SettledStep(s, p, step);
  }

  lemma {:induction false} RunSettled(states: seq<System>, n: nat)
    requires IsRun(states) && n < |states|
    ensures Settled(states[n])
  {
    if n == 0 {
      forall p | 0 <= p < |states[0].procs| ensures SettledAt(states[0].procs[p], p, states[0].net) {
        assert InitProcess(states[0].procs[p]);
      }
    } else {
      RunSettled(states, n - 1);
      assert Next(states[n - 1], states[n]);
      var p: nat, step :| Enabled(states[n - 1], p, step) && states[n] == Apply(states[n - 1], p, step);
      SettledStep(states[n - 1], p, step);
    }
  }

  lemma RunSound(states: seq<System>, n: nat)
    requires IsRun(states) && n < |states|
    ensures Sound(states[n])
  {
    RunInv(states, n);
    RunAddressed(states, n);
    RunSettled(states, n);
  }

  // ---------- what a step does to what is under way ----------

  lemma CarriesAppended(s: seq<Rec>, r: Rec, to: int, proc: nat)
    ensures CarriesRec(s + [r], to, proc) <==> CarriesRec(s, to, proc) || (r.to == to && r.proc == proc)
  {
    if CarriesRec(s, to, proc) {
      var i :| 0 <= i < |s| && s[i].to == to && s[i].proc == proc;
      assert (s + [r])[i] == s[i];
    }
    if r.to == to && r.proc == proc { assert (s + [r])[|s|] == r; }
  }

  lemma CarriesRemoved(s: seq<Rec>, i: nat, to: int, proc: nat)
    requires i < |s|
    ensures CarriesRec(s, to, proc) <==> CarriesRec(RemoveAt(s, i), to, proc) || (s[i].to == to && s[i].proc == proc)
  {
    var rest := RemoveAt(s, i);
    if CarriesRec(s, to, proc) {
      var j :| 0 <= j < |s| && s[j].to == to && s[j].proc == proc;
      assert j != i ==> rest[if j < i then j else j - 1] == s[j];
    }
    if CarriesRec(rest, to, proc) {
      var j :| 0 <= j < |rest| && rest[j].to == to && rest[j].proc == proc;
      assert rest[j] == s[if j < i then j else j + 1];
    }
  }

  lemma NetAppended(net: seq<Packet>, m: Packet, to: int, proc: nat)
    ensures NetCarries(net + [m], to, proc) <==> NetCarries(net, to, proc) || (m.rec.to == to && m.rec.proc == proc)
  {
    if NetCarries(net, to, proc) {
      var k :| 0 <= k < |net| && net[k].rec.to == to && net[k].rec.proc == proc;
      assert (net + [m])[k] == net[k];
    }
    if m.rec.to == to && m.rec.proc == proc { assert (net + [m])[|net|] == m; }
  }

  lemma NetRemoved(net: seq<Packet>, i: nat, to: int, proc: nat)
    requires i < |net|
    ensures NetCarries(net, to, proc) <==>
              NetCarries(RemoveAt(net, i), to, proc) || (net[i].rec.to == to && net[i].rec.proc == proc)
  {
    var rest := RemoveAt(net, i);
    if NetCarries(net, to, proc) {
      var j :| 0 <= j < |net| && net[j].rec.to == to && net[j].rec.proc == proc;
      assert j != i ==> rest[if j < i then j else j - 1] == net[j];
    }
    if NetCarries(rest, to, proc) {
      var j :| 0 <= j < |rest| && rest[j].rec.to == to && rest[j].rec.proc == proc;
      assert rest[j] == net[if j < i then j else j + 1];
    }
  }

  ghost predicate NearBy(P: Process, net: seq<Packet>, to: int, proc: nat) {
    Carries(P, to, proc) || NetCarries(net, to, proc)
  }

  /** Nothing new gets under way but by Enqueue, and only what is taken by its block is gone. */
  lemma LocalUnderWay(P: Process, p: nat, net: seq<Packet>, step: Step, to: int, proc: nat)
    requires Guard(P, p, net, step)
    ensures NearBy(P, net, to, proc) && !(step.PopFront? && to == P.place.block && proc == P.incoming[step.i].proc) ==>
              NearBy(Local(P, net, step), NetAfter(P, p, net, step), to, proc)
    ensures !step.Enqueue? && NearBy(Local(P, net, step), NetAfter(P, p, net, step), to, proc) ==>
              NearBy(P, net, to, proc)
  {
    match step
    case SendSameRank(i) =>
      CarriesRemoved(P.outgoing, i, to, proc);
      CarriesAppended(P.incoming, P.outgoing[i], to, proc);
    case SendDifferentRank(i, id) =>
      CarriesRemoved(P.outgoing, i, to, proc);
      NetAppended(net, Packet(p, P.outgoing[i].proc, id, P.outgoing[i]), to, proc);
    case Receive(i) => NetRemoved(net, i, to, proc);
    case PlaceRecord => CarriesAppended(P.incoming, P.place.rec, to, proc);
    case PopFront(i) => CarriesRemoved(P.incoming, i, to, proc);
    case CopyOut(target) =>
      CarriesAppended(P.outgoing, Rec(P.place.block, target.0, target.1, P.place.pending[target], []), to, proc);
    case _ =>
  }

  lemma UnderWaySplit(s: System, p: nat, to: int, proc: nat)
    requires p < |s.procs|
    ensures UnderWay(s, to, proc) <==>
              NearBy(s.procs[p], s.net, to, proc)
              || exists q :: 0 <= q < |s.procs| && q != p && Carries(s.procs[q], to, proc)
  {
  }

  lemma SameBlocks(s: System, p: nat, step: Step, to: int, proc: nat)
    requires Enabled(s, p, step) && Settled(s)
    ensures IsBlock(Apply(s, p, step), to, proc) <==> IsBlock(s, to, proc)
  {
    LocalSettled(s.procs[p], p, s.net, step);
  }

  lemma UnderWayStep(s: System, p: nat, step: Step, to: int, proc: nat)
    requires Sound(s) && Enabled(s, p, step)
    ensures UnderWay(s, to, proc) && !IsBlock(s, to, proc) ==> UnderWay(Apply(s, p, step), to, proc)
    ensures !step.Enqueue? && UnderWay(Apply(s, p, step), to, proc) ==> UnderWay(s, to, proc)
  {
    var t := Apply(s, p, step);
    UnderWaySplit(s, p, to, proc);
    UnderWaySplit(t, p, to, proc);
    LocalUnderWay(s.procs[p], p, s.net, step, to, proc);
    assert SettledAt(s.procs[p], p, s.net) && AddressedTo(s.procs[p], p);
    assert forall q :: 0 <= q < |s.procs| && q != p ==> t.procs[q] == s.procs[q];
  }

  ghost predicate Stuck(s: System, to: int, proc: nat) {
    UnderWay(s, to, proc) && !IsBlock(s, to, proc)
  }

  lemma StuckStep(states: seq<System>, n: nat, to: int, proc: nat)
    requires IsRun(states) && n + 1 < |states| && Stuck(states[n], to, proc)
    ensures Stuck(states[n + 1], to, proc)
  {
    RunSound(states, n);
    var s := states[n];
    assert Next(states[n + 1 - 1], states[n + 1]);
    var p: nat, step :| Enabled(s, p, step) && states[n + 1] == Apply(s, p, step);
    UnderWayStep(s, p, step, to, proc);
    SameBlocks(s, p, step, to, proc);
  }

  /** A queue for a block that is not there stays under way for good. */
  lemma {:induction false} StuckForGood(states: seq<System>, m: nat, n: nat, to: int, proc: nat)
    requires IsRun(states) && m <= n < |states| && Stuck(states[m], to, proc)
    ensures Stuck(states[n], to, proc)
    decreases n - m
  {
    if m < n {
      StuckStep(states, m, to, proc);
      StuckForGood(states, m + 1, n, to, proc);
    }
  }

  lemma DeliverableStep(s: System, p: nat, step: Step)
    requires Sound(s) && Deliverable(s) && Enabled(s, p, step) && !step.Enqueue?
    ensures Deliverable(Apply(s, p, step))
  {
    var t := Apply(s, p, step);
    forall to, proc | UnderWay(t, to, proc) ensures IsBlock(t, to, proc) {
      UnderWayStep(s, p, step, to, proc);
      SameBlocks(s, p, step, to, proc);
    }
  }

  // ---------- work left ----------

  /** There is a queue the callback has not looked at yet. */
  ghost predicate Unseen(P: Process, block: int, seen: set<int>) {
    exists r :: r in P.incoming && r.to == block && r.from !in seen
  }

  /** How far the process is from being between callbacks, if it finishes each as soon as it can. */
  ghost function PlaceWork(P: Process): nat {
    match P.place
    case Loop => 5
    case Probed(_) => 4
    case Holding(_) => 12
    case Filling(b, seen, pending) =>
      12 * |pending| + if b in P.open then 2 else if seen == {} && Unseen(P, b, seen) then 4 else 8
    case Running(b, pending) => 12 * |pending| + if b in P.open then 1 else 7
    case Flushing(_, pending) => 12 * |pending| + 6
  }

  ghost function WorkOf(P: Process): nat {
    6 * |P.open| + 11 * |P.outgoing| + 6 * |P.incoming| + |P.sends| + PlaceWork(P)
  }

  ghost function WorkLeft(s: System): nat {
    Total(P => WorkOf(P), s.procs) + 9 * |s.net|
  }

  lemma WorkAfter(s: System, p: nat, step: Step)
    requires p < |s.procs|
    ensures WorkLeft(Apply(s, p, step)) + WorkOf(s.procs[p]) + 9 * |s.net|
         == WorkLeft(s) + WorkOf(Local(s.procs[p], s.net, step)) + 9 * |NetAfter(s.procs[p], p, s.net, step)|
  {
    TotalUpdated(P => WorkOf(P), s.procs, p, Local(s.procs[p], s.net, step));
  }

  /** A step the process can take, other than to enqueue or for the collective, that leaves less work. */
  ghost predicate Less(P: Process, p: nat, net: seq<Packet>, step: Step) {
    && Guard(P, p, net, step) && !step.Enqueue? && !step.ControlStep?
    && WorkOf(Local(P, net, step)) + 9 * |NetAfter(P, p, net, step)| < WorkOf(P) + 9 * |net|
  }

  ghost predicate Lessens(s: System, p: nat, step: Step) {
    p < |s.procs| && Less(s.procs[p], p, s.net, step)
  }

  ghost predicate Waiting(P: Process, block: int, seen: set<int>, i: int) {
    0 <= i < |P.incoming| && P.incoming[i].to == block && P.incoming[i].from !in seen
  }

  /** The oldest queue for the block from a sender not seen yet. */
  lemma {:induction false} FirstWaiting(P: Process, block: int, seen: set<int>, i: nat) returns (j: nat)
    requires Waiting(P, block, seen, i)
    ensures Waiting(P, block, seen, j) && FrontOfQueue(P.incoming, j)
  {
    j := i;
    if k :| 0 <= k < i && Waiting(P, block, seen, k) {
      j := FirstWaiting(P, block, seen, k);
    } else {
      forall k | 0 <= k < i ensures P.incoming[k].from != P.incoming[i].from || P.incoming[k].to != P.incoming[i].to {
        assert !Waiting(P, block, seen, k);
      }
    }
  }

  lemma PopOn(P: Process, p: nat, net: seq<Packet>) returns (step: Step)
    requires P.ctl.state != 3 && P.place.Filling? && Unseen(P, P.place.block, P.place.seen)
    ensures Less(P, p, net, step)
  {
    var b, seen := P.place.block, P.place.seen;
    var r :| r in P.incoming && r.to == b && r.from !in seen;
    var k :| 0 <= k < |P.incoming| && P.incoming[k] == r;
    var i := FirstWaiting(P, b, seen, k);
    step := PopFront(i);
    var Q := Local(P, net, step);
    assert |Q.incoming| == |P.incoming| - 1 && Q.open == P.open && Q.outgoing == P.outgoing && Q.sends == P.sends;
    assert PlaceWork(Q) <= PlaceWork(P) + 4;
  }

  lemma FilledOn(P: Process, p: nat, net: seq<Packet>) returns (step: Step)
    requires P.ctl.state != 3 && P.place.Filling? && !Unseen(P, P.place.block, P.place.seen)
    ensures Less(P, p, net, step)
  {
    step := EndFill;
    var Q := Local(P, net, step);
    assert Q == P.(place := Running(P.place.block, P.place.pending));
    assert PlaceWork(Q) < PlaceWork(P);
  }

  lemma ReturnOn(P: Process, p: nat, net: seq<Packet>) returns (step: Step)
    requires P.ctl.state != 3 && P.place.Running?
    ensures Less(P, p, net, step)
  {
    step := Return(true);
    var b, Q := P.place.block, Local(P, net, step);
    assert Q.outgoing == P.outgoing && Q.incoming == P.incoming && Q.sends == P.sends;
    assert PlaceWork(Q) == 12 * |P.place.pending| + 6;
    if b in P.open {
      assert Q.open == P.open - {b} && |Q.open| == |P.open| - 1;
    }
  }

  lemma CopyOn(P: Process, p: nat, net: seq<Packet>) returns (step: Step)
    requires P.ctl.state != 3 && P.place.Flushing? && P.place.pending != map[]
    ensures Less(P, p, net, step)
  {
    var target := Member(P.place.pending.Keys);
    step := CopyOut(target);
    var Q := Local(P, net, step);
    assert |P.place.pending - {target}| == |P.place.pending| - 1 by {
      assert (P.place.pending - {target}).Keys == P.place.pending.Keys - {target};
    }
    assert Q.incoming == P.incoming && Q.sends == P.sends && Q.open == P.open && |Q.outgoing| == |P.outgoing| + 1;
  }

  lemma CallBackOn(P: Process, p: nat, net: seq<Packet>) returns (step: Step)
    requires P.ctl.state != 3 && InCallback(P.place)
    ensures Less(P, p, net, step)
  {
    if P.place.Filling? {
      if Unseen(P, P.place.block, P.place.seen) {
        step := PopOn(P, p, net);
      } else {
        step := FilledOn(P, p, net);
      }
    } else if P.place.Running? {
      step := ReturnOn(P, p, net);
    } else if P.place.pending != map[] {
      step := CopyOn(P, p, net);
    } else {
      step := EndCallback;
    }
  }

  /** The oldest packet from one process to another. */
  lemma {:induction false} OldestPacket(net: seq<Packet>, src: nat, dst: nat, i: nat) returns (j: nat)
    requires i < |net| && net[i].src == src && net[i].dst == dst
    ensures NextPacket(net, j, src, dst)
  {
    j := i;
    if k :| 0 <= k < i && net[k].src == src && net[k].dst == dst {
      j := OldestPacket(net, src, dst, k);
    }
  }

  lemma ReceiveOn(P: Process, p: nat, net: seq<Packet>) returns (step: Step)
    requires P.ctl.state != 3 && (P.place.Probed? || P.place.Holding?) && SettledAt(P, p, net)
    ensures Less(P, p, net, step)
  {
    if P.place.Holding? {
      step := PlaceRecord;
    } else {
      var k :| 0 <= k < |net| && net[k].src == P.place.src && net[k].dst == p;
      var i := OldestPacket(net, P.place.src, p, k);
      step := Receive(i);
    }
  }

  lemma Member<T>(s: set<T>) returns (x: T)
    requires s != {}
    ensures x in s
  {
    x :| x in s;
  }

  lemma {:induction false} FreshId(ids: set<nat>) returns (id: nat)
    ensures forall x :: x in ids ==> x < id
    decreases |ids|
  {
    if ids == {} {
      id := 0;
    } else {
      var x := Member(ids);
      var y := FreshId(ids - {x});
      assert forall z :: z in ids ==> z == x || z in ids - {x};
      id := if y > x then y else x + 1;
    }
  }

  lemma SendOn(P: Process, p: nat, net: seq<Packet>) returns (step: Step)
    requires P.ctl.state != 3 && P.place.Loop? && P.outgoing != []
    ensures Less(P, p, net, step)
  {
    if P.outgoing[0].proc == p {
      step := SendSameRank(0);
    } else {
      var id := FreshId(P.sends);
      step := SendDifferentRank(0, id);
    }
  }

  lemma NudgeOn(P: Process, p: nat, net: seq<Packet>) returns (step: Step)
    requires P.ctl.state != 3 && P.place.Loop? && P.sends != {} && net == []
    ensures Less(P, p, net, step)
  {
    var id := Member(P.sends);
    step := Nudge(id);
    assert |P.sends - {id}| == |P.sends| - 1;
  }

  lemma BeginOn(s: System, p: nat) returns (step: Step)
    requires Sound(s) && Deliverable(s) && p < |s.procs| && s.procs[p].ctl.state != 3
    requires s.procs[p].place.Loop? && (s.procs[p].open != {} || s.procs[p].incoming != [])
    ensures Lessens(s, p, step)
  {
    var P := s.procs[p];
    assert SettledAt(P, p, s.net) && AddressedTo(P, p);
    if P.open != {} {
      var b := Member(P.open);
      step := BeginCallback(b);
    } else {
      var r := P.incoming[0];
      assert CarriesRec(P.incoming, r.to, r.proc) && Carries(P, r.to, r.proc) && UnderWay(s, r.to, r.proc);
      step := BeginCallback(r.to);
      assert Unseen(P, r.to, {}) && Unseen(Local(P, s.net, step), r.to, {});
    }
  }

  lemma ProbeOn(s: System) returns (p: nat, step: Step)
    requires Sound(s) && Deliverable(s) && s.net != []
    requires forall q :: 0 <= q < |s.procs| ==> s.procs[q].place.Loop? && s.procs[q].ctl.state != 3
    ensures Lessens(s, p, step)
  {
    var m := s.net[0];
    assert NetCarries(s.net, m.rec.to, m.rec.proc) && UnderWay(s, m.rec.to, m.rec.proc);
    p, step := m.dst, Probe(m.src);
  }

  /** As long as the system is not quiet some process can do some of the work. */
  lemma WorkOn(s: System) returns (p: nat, step: Step)
    requires Sound(s) && Deliverable(s) && !Quiet(s)
    ensures Lessens(s, p, step)
  {
    forall q | 0 <= q < |s.procs| ensures s.procs[q].ctl.state != 3 {
      if s.procs[q].ctl.state == 3 { DoneIsQuiet(s, q); }
    }
    if q :| 0 <= q < |s.procs| && !s.procs[q].place.Loop? {
      p := q;
      assert SettledAt(s.procs[q], q, s.net);
      if InCallback(s.procs[q].place) {
        step := CallBackOn(s.procs[q], q, s.net);
      } else {
        step := ReceiveOn(s.procs[q], q, s.net);
      }
    } else if q :| 0 <= q < |s.procs| && s.procs[q].outgoing != [] {
      p := q;
      step := SendOn(s.procs[q], q, s.net);
    } else if s.net != [] {
      p, step := ProbeOn(s);
    } else if q :| 0 <= q < |s.procs| && s.procs[q].sends != {} {
      p := q;
      step := NudgeOn(s.procs[q], q, s.net);
    } else {
      p :| 0 <= p < |s.procs| && !Idle(s.procs[p]);
      step := BeginOn(s, p);
    }
  }

  // ---------- the collective, when nothing is left to do ----------

  /** Barriers entered and votes cast, as one number: every control step that changes the state counts it up. */
  function Clock(P: Process): nat {
    3 * P.entered + if P.ctl.state == 1 then 0 else if P.ctl.state == 2 then 1 else 2
  }

  /** Nobody has entered more than `last` barriers with work left: any later vote is clean, and ends the run. */
  ghost predicate CalmAt(P: Process, last: nat) {
    && P.entered <= last + 1 && (P.ctl.state == 0 ==> P.entered <= last)
    && (P.ctl.state == 1 && P.entered == last + 1 ==> !P.ctl.dirty)
    && forall j :: last <= j < |P.votes| ==> !P.votes[j]
  }

  ghost predicate Calm(s: System, last: nat) {
    Sound(s) && Quiet(s) && forall p :: 0 <= p < |s.procs| ==> CalmAt(s.procs[p], last)
  }

  /** Of the processes not done, none is behind p. */
  ghost predicate Slowest(s: System, p: nat) {
    && p < |s.procs| && s.procs[p].ctl.state != 3
    && forall q :: 0 <= q < |s.procs| && s.procs[q].ctl.state != 3 ==> Clock(s.procs[p]) <= Clock(s.procs[q])
  }

  lemma {:induction false} SlowestBelow(s: System, p: nat) returns (q: nat)
    requires p < |s.procs| && s.procs[p].ctl.state != 3
    ensures Slowest(s, q)
    decreases Clock(s.procs[p])
  {
    q := p;
    if x :| 0 <= x < |s.procs| && s.procs[x].ctl.state != 3 && Clock(s.procs[x]) < Clock(s.procs[p]) {
      q := SlowestBelow(s, x);
    }
  }

  /** Once a process is done all have cast as many votes, and nobody is before a barrier or in one. */
  lemma DoneTogether(s: System, p: nat, q: nat)
    requires Inv(s) && p < |s.procs| && q < |s.procs| && s.procs[q].ctl.state == 3
    ensures |s.procs[p].votes| == |s.procs[q].votes| == s.procs[q].entered && s.procs[p].ctl.state in {2, 3}
  {
    var k := |s.procs[q].votes| - 1;
    assert ProcessInv(s.procs[p]) && ProcessInv(s.procs[q]);
    assert VerdictOf(s, s.procs[q]) && VerdictOf(s, s.procs[p]);
    assert VerdictClean(s, k);
    assert k < |s.procs[p].votes| && |s.procs[p].votes| <= s.procs[q].entered;
    assert s.procs[p].ctl.state < 2 ==> Dirtied(s, k);
  }

  lemma EnterOn(s: System, p: nat, last: nat) returns (step: Step)
    requires Calm(s, last) && p < |s.procs| && s.procs[p].ctl.state == 0
    ensures Enabled(s, p, step) && step.ControlStep?
    ensures var Q := Local(s.procs[p], s.net, step); CalmAt(Q, last) && Clock(Q) == Clock(s.procs[p]) + 1
  {
    step := ControlStep(false, None);
    assert Idle(s.procs[p]) && ProcessInv(s.procs[p]) && CalmAt(s.procs[p], last);
  }

  lemma VoteOn(s: System, p: nat, last: nat) returns (step: Step)
    requires Calm(s, last) && Slowest(s, p) && s.procs[p].ctl.state == 1
    ensures Enabled(s, p, step) && step.ControlStep?
    ensures var Q := Local(s.procs[p], s.net, step); CalmAt(Q, last) && Clock(Q) == Clock(s.procs[p]) + 1
  {
    step := ControlStep(true, None);
    var P := s.procs[p];
    assert Idle(P) && ProcessInv(P) && CalmAt(P, last);
    forall q | 0 <= q < |s.procs| ensures P.entered <= s.procs[q].entered {
      if s.procs[q].ctl.state == 3 { DoneTogether(s, p, q); }
      assert Clock(P) <= Clock(s.procs[q]);
    }
  }

  lemma AllVoted(s: System, p: nat, last: nat)
    requires Calm(s, last) && Slowest(s, p) && s.procs[p].ctl.state == 2
    ensures |s.procs[p].votes| == s.procs[p].entered > 0
    ensures forall q :: 0 <= q < |s.procs| ==> |s.procs[p].votes| <= |s.procs[q].votes|
  {
    var P := s.procs[p];
    assert ProcessInv(P);
    forall q | 0 <= q < |s.procs| ensures |P.votes| <= |s.procs[q].votes| {
      assert ProcessInv(s.procs[q]);
      if s.procs[q].ctl.state == 3 {
        DoneTogether(s, p, q);
      } else {
        assert Clock(P) <= Clock(s.procs[q]);
      }
    }
  }

  lemma HearOn(s: System, p: nat, last: nat) returns (step: Step)
    requires Calm(s, last) && Slowest(s, p) && s.procs[p].ctl.state == 2
    ensures Enabled(s, p, step) && step.ControlStep?
    ensures var Q := Local(s.procs[p], s.net, step); CalmAt(Q, last) && Clock(Q) == Clock(s.procs[p]) + 1
  {
    var P := s.procs[p];
    AllVoted(s, p, last);
    assert Idle(P) && CalmAt(P, last);
    var k := |P.votes|;
    var dirty := exists q :: 0 <= q < |s.procs| && s.procs[q].votes[k - 1];
    step := ControlStep(false, Some(dirty));
    if dirty {
      var q :| 0 <= q < |s.procs| && s.procs[q].votes[k - 1];
      assert CalmAt(s.procs[q], last);
    }
  }

  lemma ControlOn(s: System, p: nat, last: nat) returns (step: Step)
    requires Calm(s, last) && Slowest(s, p)
    ensures Enabled(s, p, step) && step.ControlStep?
    ensures var Q := Local(s.procs[p], s.net, step); CalmAt(Q, last) && Clock(Q) == Clock(s.procs[p]) + 1
  {
    assert ProcessInv(s.procs[p]);
    if s.procs[p].ctl.state == 0 {
      step := EnterOn(s, p, last);
    } else if s.procs[p].ctl.state == 1 {
      step := VoteOn(s, p, last);
    } else {
      step := HearOn(s, p, last);
    }
  }

  function Behind(P: Process, last: nat): nat {
    if Clock(P) < 3 * last + 5 then 3 * last + 5 - Clock(P) else 0
  }

  lemma ControlBrings(s: System, p: nat, last: nat) returns (step: Step)
    requires Calm(s, last) && Slowest(s, p)
    ensures Enabled(s, p, step) && step.ControlStep? && Calm(Apply(s, p, step), last)
    ensures Total(P => Behind(P, last), Apply(s, p, step).procs) < Total(P => Behind(P, last), s.procs)
  {
    step := ControlOn(s, p, last);
    var t := Apply(s, p, step);
    SoundStep(s, p, step);
    QuietStep(s, p, step);
    TotalUpdated(P => Behind(P, last), s.procs, p, Local(s.procs[p], s.net, step));
    assert CalmAt(t.procs[p], last);
    forall q | 0 <= q < |t.procs| ensures CalmAt(t.procs[q], last) {
      assert CalmAt(s.procs[q], last);
    }
  }

  ghost predicate AllDone(s: System) {
    forall p :: 0 <= p < |s.procs| ==> s.procs[p].ctl.state == 3
  }

  lemma ControlNext(s: System, last: nat) returns (p: nat, step: Step)
    requires Calm(s, last) && !AllDone(s)
    ensures Enabled(s, p, step) && step.ControlStep? && Calm(Apply(s, p, step), last)
    ensures Total(P => Behind(P, last), Apply(s, p, step).procs) < Total(P => Behind(P, last), s.procs)
  {
    var q :| 0 <= q < |s.procs| && s.procs[q].ctl.state != 3;
    p := SlowestBelow(s, q);
    step := ControlBrings(s, p, last);
  }

  // ---------- continuing a run ----------

  ghost predicate Leads(states: seq<System>, s: System) {
    IsRun(states) && states[|states| - 1] == s
  }

  lemma RunOn(states: seq<System>, s: System, p: nat, step: Step) returns (states': seq<System>)
    requires Leads(states, s) && Enabled(s, p, step)
    ensures Leads(states', Apply(s, p, step)) && states <= states'
  {
    states' := states + [Apply(s, p, step)];
    forall i | 0 < i < |states'| ensures Next(states'[i - 1], states'[i]) {
      if i < |states| { assert Next(states[i - 1], states[i]); }
    }
  }

  lemma {:induction false} Decide(states: seq<System>, s: System, last: nat) returns (states': seq<System>, t: System)
    requires Leads(states, s) && Calm(s, last)
    ensures Leads(states', t) && states <= states' && AllDone(t)
    decreases Total(P => Behind(P, last), s.procs)
  {
    if AllDone(s) {
      states', t := states, s;
    } else {
      var p, step := ControlNext(s, last);
      var more := RunOn(states, s, p, step);
      states', t := Decide(more, Apply(s, p, step), last);
    }
  }

  lemma {:induction false} FinishWork(states: seq<System>, s: System) returns (states': seq<System>, t: System)
    requires Leads(states, s) && Sound(s) && Deliverable(s)
    ensures Leads(states', t) && states <= states' && Sound(t) && Quiet(t)
    decreases WorkLeft(s)
  {
    if Quiet(s) {
      states', t := states, s;
    } else {
      var p, step := WorkOn(s);
      WorkAfter(s, p, step);
      SoundStep(s, p, step);
      DeliverableStep(s, p, step);
      var more := RunOn(states, s, p, step);
      states', t := FinishWork(more, Apply(s, p, step));
    }
  }

  lemma {:induction false} Latest(procs: seq<Process>) returns (last: nat)
    ensures forall p :: 0 <= p < |procs| ==> procs[p].entered <= last
  {
    last := 0;
    if procs != [] {
      var n := |procs| - 1;
      var less := Latest(procs[..n]);
      last := if less > procs[n].entered then less else procs[n].entered;
      forall p | 0 <= p < |procs| ensures procs[p].entered <= last {
        if p < n { assert procs[..n][p] == procs[p]; }
      }
    }
  }

  lemma CalmNow(s: System) returns (last: nat)
    requires Sound(s) && Quiet(s)
    ensures Calm(s, last)
  {
    last := Latest(s.procs);
    forall p | 0 <= p < |s.procs| ensures CalmAt(s.procs[p], last) {
      assert ProcessInv(s.procs[p]);
    }
  }

  /** From wherever a run has come to, iexchange can still end. */
  lemma CanFinish(states: seq<System>) returns (states': seq<System>)
    requires IsRun(states) && Deliverable(states[|states| - 1])
    ensures IsRun(states') && states <= states' && AllDone(states'[|states'| - 1])
  {
    RunSound(states, |states| - 1);
    var more, s := FinishWork(states, states[|states| - 1]);
    var last := CalmNow(s);
    var t;
    states', t := Decide(more, s, last);
  }

  lemma QuietCarriesNothing(s: System, to: int, proc: nat)
    requires Quiet(s)
    ensures !UnderWay(s, to, proc)
  {
    forall p | 0 <= p < |s.procs| ensures !Carries(s.procs[p], to, proc) {
      assert Idle(s.procs[p]);
    }
  }

  ghost predicate Continues(states: seq<System>, states': seq<System>) {
    IsRun(states') && states <= states'
  }

  lemma CannotFinish(states: seq<System>, states': seq<System>)
    requires IsRun(states) && Continues(states, states') && !Deliverable(states[|states| - 1])
    ensures !AllDone(states'[|states'| - 1])
  {
    var to, proc :| UnderWay(states[|states| - 1], to, proc) && !IsBlock(states[|states| - 1], to, proc);
    var s := states'[|states'| - 1];
    StuckForGood(states', |states| - 1, |states'| - 1, to, proc);
    RunSound(states', |states'| - 1);
    if AllDone(s) {
      DoneIsQuiet(s, 0);
      QuietCarriesNothing(s, to, proc);
    }
  }

  /** A run can be continued until every process is done if and only if everything under way in it is addressed to an
      existing block. */
  lemma CanFinishIff(states: seq<System>)
    requires IsRun(states)
    ensures (exists states' :: Continues(states, states') && AllDone(states'[|states'| - 1]))
       <==> Deliverable(states[|states| - 1])
  {
    if Deliverable(states[|states| - 1]) {
      var states' := CanFinish(states);
      assert Continues(states, states');
    } else {
      forall states' | Continues(states, states') ensures !AllDone(states'[|states'| - 1]) {
        CannotFinish(states, states');
      }
    }
  }

  /** So from every start there is a run that ends with every process done. */
  lemma CanFinishFromStart(s: System) returns (states: seq<System>)
    requires Init(s)
    ensures IsRun(states) && states[0] == s && AllDone(states[|states| - 1])
  {
    forall to, proc: nat ensures !UnderWay(s, to, proc) {
      forall p | 0 <= p < |s.procs| ensures !Carries(s.procs[p], to, proc) {
        assert InitProcess(s.procs[p]);
      }
    }
    states := CanFinish([s]);
  }
}
