/** Safety of iexchange over every run: the work ledger, the verdict, quiescence and conservation. */
module IExchangeSafety {
  import opened IExchangeControl
  import opened Options
  import opened Queues
  import opened BagSums
  import opened IExchangeProtocol

  // ---------- the invariant ----------

  function Busy(place: Place): nat {
    if place.Loop? then 0 else 1
  }

  /** `local_work_` counts not-done blocks, queued records and incomplete sends, plus one unit while a
      record is being received or a callback is running. */
  ghost predicate Ledger(P: Process) {
    P.ctl.work == |P.open| + |P.outgoing| + |P.incoming| + |P.sends| + Busy(P.place)
  }

  ghost predicate ProcessInv(P: Process) {
    && Ledger(P)
    && 0 <= P.ctl.state <= 3
    && P.entered == |P.votes| + (if P.ctl.state == 1 then 1 else 0)
    && (P.ctl.state == 1 && !P.ctl.dirty ==> P.ctl.work == 0)
    && (P.ctl.state == 2 ==> |P.votes| > 0)
  }

  /** An unmatched packet keeps its sender's request in the in-flight list. */
  ghost predicate NetInv(s: System) {
    forall k :: 0 <= k < |s.net| ==> s.net[k].src < |s.procs| && s.net[k].id in s.procs[s.net[k].src].sends
  }

  ghost predicate RoundsInv(s: System) {
    forall p, q :: 0 <= p < |s.procs| && 0 <= q < |s.procs| ==> |s.procs[p].votes| <= s.procs[q].entered
  }

  ghost predicate Dirtied(s: System, k: nat) {
    exists q :: 0 <= q < |s.procs| && k < |s.procs[q].votes| && s.procs[q].votes[k]
  }

  ghost predicate VerdictClean(s: System, k: nat) {
    forall q :: 0 <= q < |s.procs| ==> k < |s.procs[q].votes| && !s.procs[q].votes[k]
  }

  /** What the last all-reduce told a process that has moved on from it. */
  ghost predicate VerdictOf(s: System, P: Process) {
    && (P.ctl.state == 3 ==> |P.votes| > 0 && VerdictClean(s, |P.votes| - 1))
    && (P.ctl.state < 2 && |P.votes| > 0 ==> Dirtied(s, |P.votes| - 1))
  }

  ghost predicate VerdictInv(s: System) {
    forall p :: 0 <= p < |s.procs| ==> VerdictOf(s, s.procs[p])
  }

  ghost predicate Idle(P: Process) {
    && P.open == {} && P.outgoing == [] && P.incoming == [] && P.sends == {} && P.place == Loop
  }

  /** No work and no message anywhere. */
  ghost predicate Quiet(s: System) {
    s.net == [] && forall p :: 0 <= p < |s.procs| ==> Idle(s.procs[p])
  }

  /** The process has been idle for its whole stay in barrier k, as far as its dirty bit knows. */
  ghost predicate CleanIn(P: Process, k: nat) {
    || (k < |P.votes| && !P.votes[k])
    || (k == |P.votes| && P.ctl.state == 1 && !P.ctl.dirty)
  }

  ghost predicate AllClean(s: System, k: nat) {
    forall p :: 0 <= p < |s.procs| ==> CleanIn(s.procs[p], k)
  }

  ghost predicate QuietInv(s: System) {
    forall k: nat :: AllClean(s, k) ==> Quiet(s)
  }

  ghost predicate Inv(s: System) {
    && |s.procs| > 0
    && (forall p :: 0 <= p < |s.procs| ==> ProcessInv(s.procs[p]))
    && NetInv(s) && RoundsInv(s) && VerdictInv(s) && QuietInv(s)
  }

  // ---------- base ----------

  lemma InitInv(s: System)
    requires Init(s)
    ensures Inv(s)
  {
    forall k: nat ensures !AllClean(s, k) {
      assert InitProcess(s.procs[0]);
      assert !CleanIn(s.procs[0], k);
    }
    forall p | 0 <= p < |s.procs| ensures ProcessInv(s.procs[p]) {
      assert InitProcess(s.procs[p]);
    }
    forall p, q | 0 <= p < |s.procs| && 0 <= q < |s.procs| ensures |s.procs[p].votes| <= s.procs[q].entered {
      assert InitProcess(s.procs[p]);
    }
    forall p | 0 <= p < |s.procs| ensures s.procs[p].ctl.state == 0 && s.procs[p].votes == [] {
      assert InitProcess(s.procs[p]);
    }
  }

  // ---------- preservation, one conjunct at a time ----------

  predicate Communicates(step: Step) {
    step.SendSameRank? || step.SendDifferentRank? || step.Nudge? || step.Probe? || step.Receive? || step.PlaceRecord?
  }

  lemma LedgerCommunication(P: Process, p: nat, net: seq<Packet>, step: Step)
    requires Ledger(P) && Guard(P, p, net, step) && Communicates(step)
    ensures Ledger(Local(P, net, step))
  {
    if step.Nudge? {
      assert |P.sends - {step.id}| == |P.sends| - 1;
    }
  }

  lemma LedgerFill(P: Process, p: nat, net: seq<Packet>, step: Step)
    requires Ledger(P) && Guard(P, p, net, step)
    requires step.BeginCallback? || step.PopFront? || step.EndFill? || step.Refill? || step.Enqueue?
    ensures Ledger(Local(P, net, step))
  {
  }

  lemma LedgerReturn(P: Process, p: nat, net: seq<Packet>, step: Step)
    requires Ledger(P) && Guard(P, p, net, step) && step.Return?
    ensures Ledger(Local(P, net, step))
  {
  }

  lemma LedgerFinish(P: Process, p: nat, net: seq<Packet>, step: Step)
    requires Ledger(P) && Guard(P, p, net, step)
    requires step.CopyOut? || step.EndCallback? || step.ControlStep?
    ensures Ledger(Local(P, net, step))
  {
  }

  lemma LedgerStep(P: Process, p: nat, net: seq<Packet>, step: Step)
    requires Ledger(P) && Guard(P, p, net, step)
    ensures Ledger(Local(P, net, step))
  {
    if Communicates(step) {
      LedgerCommunication(P, p, net, step);
    } else if step.Return? {
      LedgerReturn(P, p, net, step);
    } else if step.CopyOut? || step.EndCallback? || step.ControlStep? {
      LedgerFinish(P, p, net, step);
    } else {
      LedgerFill(P, p, net, step);
    }
  }

  lemma LocalKeepsProcessInv(P: Process, p: nat, net: seq<Packet>, step: Step)
    requires ProcessInv(P) && Guard(P, p, net, step)
    ensures ProcessInv(Local(P, net, step))
  {
    LedgerStep(P, p, net, step);
    if !step.ControlStep? {
      WorkStepFrame(P, net, step);
    }
  }

  /** Only control touches the collective state; every other step can only raise the dirty bit. */
  lemma WorkStepFrame(P: Process, net: seq<Packet>, step: Step)
    requires !step.ControlStep?
    ensures var Q := Local(P, net, step);
            Q.votes == P.votes && Q.entered == P.entered && Q.ctl.state == P.ctl.state && (P.ctl.dirty ==> Q.ctl.dirty)
  {
  }

  lemma NetFrame(P: Process, p: nat, net: seq<Packet>, step: Step)
    requires !step.SendDifferentRank? && !step.Receive?
    ensures NetAfter(P, p, net, step) == net
    ensures Local(P, net, step).sends == if step.Nudge? then P.sends - {step.id} else P.sends
  {
  }

  lemma NetInvSend(s: System, p: nat, i: nat, id: nat)
    requires NetInv(s) && p < |s.procs| && i < |s.procs[p].outgoing|
    ensures NetInv(Apply(s, p, SendDifferentRank(i, id)))
  {
    var t := Apply(s, p, SendDifferentRank(i, id));
    assert t.procs[p].sends == s.procs[p].sends + {id};
    forall k | 0 <= k < |t.net| ensures t.net[k].src < |t.procs| && t.net[k].id in t.procs[t.net[k].src].sends {
      if k < |s.net| {
        assert t.net[k] == s.net[k];
      }
    }
  }

  lemma NetInvReceive(s: System, p: nat, i: nat)
    requires NetInv(s) && p < |s.procs| && i < |s.net|
    ensures NetInv(Apply(s, p, Receive(i)))
  {
    var t := Apply(s, p, Receive(i));
    assert t.procs[p].sends == s.procs[p].sends;
    forall k | 0 <= k < |t.net| ensures t.net[k].src < |t.procs| && t.net[k].id in t.procs[t.net[k].src].sends {
      assert t.net[k] == s.net[if k < i then k else k + 1];
    }
  }

  lemma NetInvStep(s: System, p: nat, step: Step)
    requires NetInv(s) && Enabled(s, p, step)
    ensures NetInv(Apply(s, p, step))
  {
    if step.SendDifferentRank? {
      NetInvSend(s, p, step.i, step.id);
    } else if step.Receive? {
      NetInvReceive(s, p, step.i);
    } else {
      var t := Apply(s, p, step);
      NetFrame(s.procs[p], p, s.net, step);
      forall k | 0 <= k < |t.net| ensures t.net[k].src < |t.procs| && t.net[k].id in t.procs[t.net[k].src].sends {
        assert s.net[k].src < |s.procs| && s.net[k].id in s.procs[s.net[k].src].sends;
      }
    }
  }

  /** In a quiet system the only enabled steps are control steps. */
  lemma QuietOnlyControl(s: System, p: nat, step: Step)
    requires Quiet(s) && Enabled(s, p, step)
    ensures step.ControlStep?
  {
    assert Idle(s.procs[p]);
  }

  lemma QuietStep(s: System, p: nat, step: Step)
    requires Quiet(s) && Enabled(s, p, step)
    ensures Quiet(Apply(s, p, step))
  {
    QuietOnlyControl(s, p, step);
    assert Idle(s.procs[p]);
    var t := Apply(s, p, step);
    forall q | 0 <= q < |t.procs| ensures Idle(t.procs[q]) {
      assert Idle(s.procs[q]);
    }
  }

  lemma PacketKeepsSenderBusy(s: System, k: nat)
    requires Inv(s) && k < |s.net|
    ensures s.net[k].src < |s.procs| && s.procs[s.net[k].src].ctl.work > 0
  {
    var P := s.procs[s.net[k].src];
    assert ProcessInv(P);
    assert |P.sends| > 0 by {
      assert s.net[k].id in P.sends;
    }
  }

  lemma NoWorkIsQuiet(s: System)
    requires Inv(s) && forall p :: 0 <= p < |s.procs| ==> s.procs[p].ctl.work == 0
    ensures Quiet(s)
  {
    forall p | 0 <= p < |s.procs| ensures Idle(s.procs[p]) {
      assert Ledger(s.procs[p]);
    }
    if s.net != [] {
      PacketKeepsSenderBusy(s, 0);
    }
  }

  /** The last process to enter barrier k finds everybody else still idle in it. */
  lemma LastEntrantFindsQuiet(s: System, p: nat, step: Step)
    requires Inv(s) && Enabled(s, p, step) && step.ControlStep?
    requires s.procs[p].ctl.state == 0 && s.procs[p].ctl.work == 0
    requires AllClean(Apply(s, p, step), |s.procs[p].votes|)
    ensures Quiet(s)
  {
    var t := Apply(s, p, step);
    var k := |s.procs[p].votes|;
    forall q | 0 <= q < |s.procs| ensures s.procs[q].ctl.work == 0 {
      if q != p {
        assert CleanIn(t.procs[q], k);
        assert t.procs[q] == s.procs[q];
        assert |s.procs[q].votes| <= s.procs[p].entered;
      }
    }
    NoWorkIsQuiet(s);
  }

  lemma QuietInvStep(s: System, p: nat, step: Step)
    requires Inv(s) && Enabled(s, p, step)
    ensures QuietInv(Apply(s, p, step))
  {
    var t := Apply(s, p, step);
    var P := s.procs[p];
    forall k: nat | AllClean(t, k) ensures Quiet(t) {
      assert CleanIn(t.procs[p], k);
      if step.ControlStep? && P.ctl.state == 0 && P.ctl.work == 0 && k == |P.votes| {
        LastEntrantFindsQuiet(s, p, step);
      } else {
        if !step.ControlStep? { WorkStepFrame(P, s.net, step); }
        assert CleanIn(P, k);
        forall q | 0 <= q < |s.procs| ensures CleanIn(s.procs[q], k) {
          assert CleanIn(t.procs[q], k);
        }
        assert AllClean(s, k);
      }
      QuietStep(s, p, step);
    }
  }

  lemma VotesGrow(P: Process, net: seq<Packet>, step: Step)
    ensures var Q := Local(P, net, step); P.votes <= Q.votes && P.entered <= Q.entered
  {
  }

  lemma RoundsInvStep(s: System, p: nat, step: Step)
    requires Inv(s) && Enabled(s, p, step)
    ensures RoundsInv(Apply(s, p, step))
  {
    var t := Apply(s, p, step);
    VotesGrow(s.procs[p], s.net, step);
    forall a, b | 0 <= a < |t.procs| && 0 <= b < |t.procs| ensures |t.procs[a].votes| <= t.procs[b].entered {
      assert |s.procs[a].votes| <= s.procs[b].entered;
      assert ProcessInv(s.procs[p]);
    }
  }

  lemma VerdictsPersist(s: System, p: nat, step: Step, k: nat)
    requires Enabled(s, p, step)
    ensures VerdictClean(s, k) ==> VerdictClean(Apply(s, p, step), k)
    ensures Dirtied(s, k) ==> Dirtied(Apply(s, p, step), k)
  {
    var t := Apply(s, p, step);
    VotesGrow(s.procs[p], s.net, step);
    if VerdictClean(s, k) {
      forall q | 0 <= q < |t.procs| ensures k < |t.procs[q].votes| && !t.procs[q].votes[k] {
        assert k < |s.procs[q].votes| && !s.procs[q].votes[k];
      }
    }
    if Dirtied(s, k) {
      var q :| 0 <= q < |s.procs| && k < |s.procs[q].votes| && s.procs[q].votes[k];
      assert k < |t.procs[q].votes| && t.procs[q].votes[k];
    }
  }

  lemma VerdictOfBystander(s: System, p: nat, step: Step, P: Process)
    requires Enabled(s, p, step) && VerdictOf(s, P)
    ensures VerdictOf(Apply(s, p, step), P)
  {
    if |P.votes| > 0 {
      VerdictsPersist(s, p, step, |P.votes| - 1);
    }
  }

  lemma VerdictOfActor(s: System, p: nat, step: Step)
    requires Inv(s) && Enabled(s, p, step)
    ensures VerdictOf(s, Local(s.procs[p], s.net, step))
  {
    var P := s.procs[p];
    assert ProcessInv(P) && VerdictOf(s, P);
    if !step.ControlStep? {
      WorkStepFrame(P, s.net, step);
    } else if P.ctl.state == 2 && step.verdict.Some? {
      FreshVerdict(s, p, step);
    }
  }

  lemma VerdictInvStep(s: System, p: nat, step: Step)
    requires Inv(s) && Enabled(s, p, step)
    ensures VerdictInv(Apply(s, p, step))
  {
    var t := Apply(s, p, step);
    forall q | 0 <= q < |t.procs| ensures VerdictOf(t, t.procs[q]) {
      if q == p {
        VerdictOfActor(s, p, step);
      }
      VerdictOfBystander(s, p, step, t.procs[q]);
    }
  }

  lemma FreshVerdict(s: System, p: nat, step: Step)
    requires Inv(s) && Enabled(s, p, step) && step.ControlStep? && step.verdict.Some?
    requires s.procs[p].ctl.state == 2
    ensures |s.procs[p].votes| > 0
    ensures if step.verdict.value then Dirtied(s, |s.procs[p].votes| - 1) else VerdictClean(s, |s.procs[p].votes| - 1)
  {
  }

  lemma StepInv(s: System, p: nat, step: Step)
    requires Inv(s) && Enabled(s, p, step)
    ensures Inv(Apply(s, p, step))
  {
    LocalKeepsProcessInv(s.procs[p], p, s.net, step);
    NetInvStep(s, p, step);
    RoundsInvStep(s, p, step);
    VerdictInvStep(s, p, step);
    QuietInvStep(s, p, step);
  }

  lemma {:induction false} RunInv(states: seq<System>, n: nat)
    requires IsRun(states) && n < |states|
    ensures Inv(states[n])
  {
    if n == 0 {
      InitInv(states[0]);
    } else {
      RunInv(states, n - 1);
      assert Next(states[n - 1], states[n]);
      var p: nat, step :| Enabled(states[n - 1], p, step) && states[n] == Apply(states[n - 1], p, step);
      StepInv(states[n - 1], p, step);
    }
  }

  // ---------- main results ----------

  lemma DoneIsQuiet(s: System, p: nat)
    requires Inv(s) && p < |s.procs| && s.procs[p].ctl.state == 3
    ensures Quiet(s)
  {
    var k := |s.procs[p].votes| - 1;
    assert VerdictOf(s, s.procs[p]) && VerdictClean(s, k);
    forall q | 0 <= q < |s.procs| ensures CleanIn(s.procs[q], k) {
      assert k < |s.procs[q].votes| && !s.procs[q].votes[k];
    }
    assert AllClean(s, k);
  }

  /** Nobody declares "done" while a block is not done, a record is queued, a send is unfinished, a
      message is in the network or a callback is running, on any process. */
  lemma DoneMeansQuiet(states: seq<System>, n: nat, p: nat)
    requires IsRun(states) && n < |states| && p < |states[n].procs|
    requires states[n].procs[p].ctl.state == 3
    ensures Quiet(states[n])
  {
    RunInv(states, n);
    DoneIsQuiet(states[n], p);
  }

  /** What the all-reduce decides: once its result is in, the process is done if every vote was clean, and
      otherwise back before the next barrier, where it goes as soon as it has no work. */
  lemma VerdictDecides(states: seq<System>, n: nat, p: nat, barrierDone: bool, verdict: Option<bool>)
    requires IsRun(states) && n < |states| && Enabled(states[n], p, ControlStep(barrierDone, verdict))
    requires states[n].procs[p].ctl.state == 2 && verdict.Some?
    ensures var s, t := states[n], Apply(states[n], p, ControlStep(barrierDone, verdict));
            var k := |s.procs[p].votes| - 1;
            && (t.procs[p].ctl.state == 3 <==> VerdictClean(s, k))
            && (t.procs[p].ctl.state == 0 <==> Dirtied(s, k))
            && (VerdictClean(s, k) <==> !Dirtied(s, k))
  {
    RunInv(states, n);
    assert ProcessInv(states[n].procs[p]);
  }

  /** In every state: a process that has heard the result of its last vote is done exactly if all votes were
      clean. */
  lemma DoneIffClean(states: seq<System>, n: nat, p: nat)
    requires IsRun(states) && n < |states| && p < |states[n].procs|
    requires states[n].procs[p].ctl.state != 2 && states[n].procs[p].votes != []
    ensures states[n].procs[p].ctl.state == 3 <==> VerdictClean(states[n], |states[n].procs[p].votes| - 1)
  {
    RunInv(states, n);
    var s := states[n];
    assert ProcessInv(s.procs[p]) && VerdictOf(s, s.procs[p]);
  }

  /** All processes reach the same verdict: once one is done, every other one has voted in that same
      round and is done too or can only learn "done". */
  lemma VerdictIsShared(states: seq<System>, n: nat, p: nat, q: nat, verdict: Option<bool>)
    requires IsRun(states) && n < |states| && p < |states[n].procs| && q < |states[n].procs|
    requires states[n].procs[p].ctl.state == 3
    ensures |states[n].procs[q].votes| == |states[n].procs[p].votes|
    ensures states[n].procs[q].ctl.state in {2, 3}
    ensures CollectiveAxioms(states[n], q, false, verdict) && verdict.Some? ==> verdict == Some(false)
  {
    RunInv(states, n);
    var s := states[n];
    var k := |s.procs[p].votes| - 1;
    assert VerdictOf(s, s.procs[p]) && VerdictClean(s, k);
    assert k < |s.procs[q].votes| && !s.procs[q].votes[k];
    assert |s.procs[q].votes| <= s.procs[p].entered;
    assert ProcessInv(s.procs[p]) && ProcessInv(s.procs[q]);
    assert VerdictOf(s, s.procs[q]);
    assert s.procs[q].ctl.state < 2 ==> Dirtied(s, k);
  }

  // ---------- conservation of records ----------

  function Held(place: Place): multiset<Rec> {
    if place.Holding? then multiset{place.rec} else multiset{}
  }

  /** The records in the care of one process. */
  function Bag(P: Process): multiset<Rec> {
    multiset(P.outgoing) + multiset(P.incoming) + Held(P.place)
  }

  function Bags(procs: seq<Process>): seq<multiset<Rec>> {
    seq(|procs|, i requires 0 <= i < |procs| => Bag(procs[i]))
  }

  function NetBag(net: seq<Packet>): multiset<Rec> {
    if net == [] then multiset{} else multiset{net[0].rec} + NetBag(net[1..])
  }

  lemma {:induction false} NetBagAppend(net: seq<Packet>, m: Packet)
    ensures NetBag(net + [m]) == NetBag(net) + multiset{m.rec}
  {
    if net == [] {
      assert (net + [m])[1..] == [];
    } else {
      assert (net + [m])[1..] == net[1..] + [m];
      NetBagAppend(net[1..], m);
    }
  }

  lemma {:induction false} NetBagRemove(net: seq<Packet>, i: nat)
    requires i < |net|
    ensures NetBag(RemoveAt(net, i)) + multiset{net[i].rec} == NetBag(net)
  {
    if i == 0 {
      assert RemoveAt(net, 0) == net[1..];
    } else {
      assert RemoveAt(net, i)[1..] == RemoveAt(net[1..], i - 1);
      NetBagRemove(net[1..], i - 1);
    }
  }

  lemma RemoveBag(s: seq<Rec>, i: nat)
    requires i < |s|
    ensures multiset(RemoveAt(s, i)) + multiset{s[i]} == multiset(s)
  {
    assert s == s[..i] + [s[i]] + s[i + 1..];
  }

  /** Every record copied out by a proxy is in exactly one place: taken in by a proxy, in some queue,
      in a receive buffer, or in the network. */
  ghost predicate Conserved(s: System) {
    s.enqueued == s.delivered + Sum(Bags(s.procs)) + NetBag(s.net)
  }

  ghost predicate Balanced(P: Process, p: nat, net: seq<Packet>, step: Step) {
    forall r :: Bag(P)[r] + NetBag(net)[r] + Sent(P, step)[r]
             == Taken(P, step)[r] + Bag(Local(P, net, step))[r] + NetBag(NetAfter(P, p, net, step))[r]
  }

  lemma BalancedSameRank(P: Process, p: nat, net: seq<Packet>, i: nat)
    requires i < |P.outgoing|
    ensures Balanced(P, p, net, SendSameRank(i))
  {
    RemoveBag(P.outgoing, i);
    assert Bag(Local(P, net, SendSameRank(i)))
        == multiset(RemoveAt(P.outgoing, i)) + multiset(P.incoming) + multiset{P.outgoing[i]} + Held(P.place);
  }

  lemma BalancedDifferentRank(P: Process, p: nat, net: seq<Packet>, i: nat, id: nat)
    requires i < |P.outgoing|
    ensures Balanced(P, p, net, SendDifferentRank(i, id))
  {
    RemoveBag(P.outgoing, i);
    NetBagAppend(net, Packet(p, P.outgoing[i].proc, id, P.outgoing[i]));
  }

  lemma BalancedReceive(P: Process, p: nat, net: seq<Packet>, i: nat)
    requires i < |net| && P.place.Probed?
    ensures Balanced(P, p, net, Receive(i))
  {
    NetBagRemove(net, i);
    assert Bag(Local(P, net, Receive(i))) == Bag(P) + multiset{net[i].rec};
  }

  lemma BalancedPop(P: Process, p: nat, net: seq<Packet>, i: nat)
    requires i < |P.incoming| && P.place.Filling?
    ensures Balanced(P, p, net, PopFront(i))
  {
    RemoveBag(P.incoming, i);
    assert Bag(P) == Bag(Local(P, net, PopFront(i))) + multiset{P.incoming[i]};
  }

  lemma BalancedPlace(P: Process, p: nat, net: seq<Packet>)
    requires P.place.Holding?
    ensures Balanced(P, p, net, PlaceRecord)
  {
  }

  lemma BalancedCopyOut(P: Process, p: nat, net: seq<Packet>, target: (int, nat))
    requires P.place.Flushing? && target in P.place.pending
    ensures Balanced(P, p, net, CopyOut(target))
  {
    assert Bag(Local(P, net, CopyOut(target))) == Bag(P) + Sent(P, CopyOut(target));
  }

  lemma BalancedRest(P: Process, p: nat, net: seq<Packet>, step: Step)
    requires !P.place.Holding?
    requires !step.SendSameRank? && !step.SendDifferentRank? && !step.Receive? && !step.PopFront?
    requires !step.PlaceRecord? && !step.CopyOut?
    ensures Balanced(P, p, net, step)
  {
    var Q := Local(P, net, step);
    assert Q.outgoing == P.outgoing && Q.incoming == P.incoming && Held(Q.place) == Held(P.place);
    assert NetAfter(P, p, net, step) == net && Bag(Q) == Bag(P);
  }

  lemma LocalConserves(P: Process, p: nat, net: seq<Packet>, step: Step)
    requires Guard(P, p, net, step)
    ensures Balanced(P, p, net, step)
  {
    match step
    case SendSameRank(i) => BalancedSameRank(P, p, net, i);
    case SendDifferentRank(i, id) => BalancedDifferentRank(P, p, net, i, id);
    case Receive(i) => BalancedReceive(P, p, net, i);
    case PopFront(i) => BalancedPop(P, p, net, i);
    case PlaceRecord => BalancedPlace(P, p, net);
    case CopyOut(target) => BalancedCopyOut(P, p, net, target);
    case _ => BalancedRest(P, p, net, step);
  }

  lemma BagsAfter(procs: seq<Process>, p: nat, Q: Process)
    requires p < |procs|
    ensures Sum(Bags(procs[p := Q])) + Bag(procs[p]) == Sum(Bags(procs)) + Bag(Q)
  {
    SumUpdate(Bags(procs), p, Bag(Q));
    assert Bags(procs[p := Q]) == Bags(procs)[p := Bag(Q)];
  }

  lemma StepConserves(s: System, p: nat, step: Step)
    requires Enabled(s, p, step) && Conserved(s)
    ensures Conserved(Apply(s, p, step))
  {
    var P := s.procs[p];
    var Q := Local(P, s.net, step);
    assert Balanced(P, p, s.net, step) by { LocalConserves(P, p, s.net, step); }
    BagsAfter(s.procs, p, Q);
    Rebalance(s.enqueued, s.delivered, Sum(Bags(s.procs)), Sum(Bags(s.procs[p := Q])),
              Bag(P), Bag(Q), NetBag(s.net), NetBag(NetAfter(P, p, s.net, step)), Sent(P, step), Taken(P, step));
  }

  lemma Rebalance(enq: multiset<Rec>, del: multiset<Rec>, sum: multiset<Rec>, sum': multiset<Rec>,
                  b: multiset<Rec>, b': multiset<Rec>, net: multiset<Rec>, net': multiset<Rec>,
                  sent: multiset<Rec>, taken: multiset<Rec>)
    requires enq == del + sum + net
    requires forall r :: b[r] + net[r] + sent[r] == taken[r] + b'[r] + net'[r]
    requires sum' + b == sum + b'
    ensures enq + sent == del + taken + sum' + net'
  {
    forall r ensures (enq + sent)[r] == (del + taken + sum' + net')[r] {
      assert enq[r] == (del + sum + net)[r];
      assert (sum' + b)[r] == (sum + b')[r];
    }
  }

  lemma {:induction false} RunConserves(states: seq<System>, n: nat)
    requires IsRun(states) && n < |states|
    ensures Conserved(states[n])
  {
    if n == 0 {
      var s := states[0];
      forall p | 0 <= p < |s.procs|
        ensures Bag(s.procs[p]) == multiset{}
      {
        assert InitProcess(s.procs[p]);
      }
      EmptySum(Bags(s.procs));
    } else {
      RunConserves(states, n - 1);
      assert Next(states[n - 1], states[n]);
      var p: nat, step :| Enabled(states[n - 1], p, step) && states[n] == Apply(states[n - 1], p, step);
      StepConserves(states[n - 1], p, step);
    }
  }

  /** When any process leaves iexchange, every record ever enqueued has been taken in by a callback
      exactly once, so the `outgoing_.clear()` that follows discards nothing. */
  lemma DoneMeansDelivered(states: seq<System>, n: nat, p: nat)
    requires IsRun(states) && n < |states| && p < |states[n].procs|
    requires states[n].procs[p].ctl.state == 3
    ensures states[n].delivered == states[n].enqueued
  {
    DoneMeansQuiet(states, n, p);
    RunConserves(states, n);
    var s := states[n];
    forall q | 0 <= q < |s.procs|
      ensures Bag(s.procs[q]) == multiset{}
    {
      assert Idle(s.procs[q]);
    }
    EmptySum(Bags(s.procs));
  }

  // ---------- records reach the process they are addressed to ----------

  ghost predicate Addressed(s: System) {
    && (forall k :: 0 <= k < |s.net| ==> s.net[k].dst == s.net[k].rec.proc)
    && (forall p :: 0 <= p < |s.procs| ==> AddressedTo(s.procs[p], p))
  }

  ghost predicate AddressedTo(P: Process, p: nat) {
    && (forall i :: 0 <= i < |P.incoming| ==> P.incoming[i].proc == p)
    && (P.place.Holding? ==> P.place.rec.proc == p)
  }

  lemma LocalAddressed(P: Process, p: nat, net: seq<Packet>, step: Step)
    requires AddressedTo(P, p) && Guard(P, p, net, step)
    requires forall k :: 0 <= k < |net| ==> net[k].dst == net[k].rec.proc
    ensures AddressedTo(Local(P, net, step), p)
    ensures forall k :: 0 <= k < |NetAfter(P, p, net, step)| ==>
              NetAfter(P, p, net, step)[k].dst == NetAfter(P, p, net, step)[k].rec.proc
  {
  }

  lemma StepAddressed(s: System, p: nat, step: Step)
    requires Enabled(s, p, step) && Addressed(s)
    ensures Addressed(Apply(s, p, step))
  {
    var t := Apply(s, p, step);
    assert AddressedTo(s.procs[p], p);
    LocalAddressed(s.procs[p], p, s.net, step);
    forall q | 0 <= q < |t.procs| ensures AddressedTo(t.procs[q], q) {
      assert AddressedTo(s.procs[q], q);
    }
  }

  lemma {:induction false} RunAddressed(states: seq<System>, n: nat)
    requires IsRun(states) && n < |states|
    ensures Addressed(states[n])
  {
    if n == 0 {
      forall p | 0 <= p < |states[0].procs| ensures AddressedTo(states[0].procs[p], p) {
        assert InitProcess(states[0].procs[p]);
      }
    } else {
      RunAddressed(states, n - 1);
      assert Next(states[n - 1], states[n]);
      var p: nat, step :| Enabled(states[n - 1], p, step) && states[n] == Apply(states[n - 1], p, step);
      StepAddressed(states[n - 1], p, step);
    }
  }

  /** A callback only ever takes in records addressed to its own block on its own process, oldest
      first within each source. */
  lemma DeliveredToAddressee(states: seq<System>, n: nat, p: nat, i: nat)
    requires IsRun(states) && n < |states| && Enabled(states[n], p, PopFront(i))
    ensures var P := states[n].procs[p];
            && P.incoming[i].proc == p && P.incoming[i].to == P.place.block
            && forall j :: 0 <= j < i ==>
                P.incoming[j].from != P.incoming[i].from || P.incoming[j].to != P.incoming[i].to
  {
    RunAddressed(states, n);
    assert AddressedTo(states[n].procs[p], p);
  }
}
