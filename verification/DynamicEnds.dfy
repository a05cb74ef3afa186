/** dynamic_foreach together with its iexchange can end: from every start there is a run of both after which every
    process is done and the executors have nothing left. */
module DynamicEnds {
  import opened Counting
  import opened Options
  import opened LoadBalance
  import opened DynamicProtocol
  import opened DynamicBalance
  import opened DynamicDone
  import opened DynamicSwap
  import E = IExchangeProtocol
  import S = IExchangeSafety
  import G = IExchangeProgress

  ghost predicate Leads(k: Setting, joints: seq<Joint>, j: Joint) {
    IsJointRun(k, joints) && joints[|joints| - 1] == j
  }

  lemma Pacing(k: Setting, joints: seq<Joint>, j: Joint, p: nat, m: Pace) returns (joints': seq<Joint>)
    requires Leads(k, joints, j) && CanPace(k, j, p, m)
    ensures Leads(k, joints', Paced(k, j, p, m)) && joints <= joints'
  {
    var j' := Paced(k, j, p, m);
    joints' := joints + [j'];
    assert Paces(k, j, j');
    forall i | 0 < i < |joints'| ensures Paces(k, joints'[i - 1], joints'[i]) {
      if i < |joints| { assert Paces(k, joints[i - 1], joints[i]); }
    }
  }

  // ---------- the executors empty their lists ----------

  /** Nothing is under way, and the balancers have not begun. */
  ghost predicate Untouched(k: Setting, j: Joint) {
    && ValidSetting(k) && E.Init(j.sys) && |j.sys.procs| == |j.world.procs| == |j.boxes| && j.ids == []
    && j.world.transit == [] && forall p :: 0 <= p < |j.boxes| ==> AtRest(j.sys.procs[p], j.world.procs[p], p)
  }

  ghost predicate AtRest(P: E.Process, B: Proc, p: nat) {
    P.blocks == {p} && !B.inCallback && B.hand.Empty? && B.aim.None?
  }

  /** The executor's steps until its list is empty. */
  function StepsLeft(k: Setting, B: Proc): nat {
    |B.free| * (7 * k.commands + 1)
    + if B.turn.None? then 0
      else (if B.turn.value.cmd < k.commands then k.commands - 1 - B.turn.value.cmd else 0) * 7
           + 7 - Rank(B.turn.value.stage)
  }

  function NextAct(B: Proc): Act {
    if B.turn.Some? then ExecutorStep else ExecutorGrab
  }

  lemma StepsLess(k: Setting, w: World, p: nat)
    requires ValidSetting(k) && p < |w.procs| && (w.procs[p].turn.Some? || w.procs[p].free != [])
    ensures Can(k, w, p, NextAct(w.procs[p]))
    ensures var B := After(k, w, p, w.procs[p], NextAct(w.procs[p]));
            && StepsLeft(k, B) < StepsLeft(k, w.procs[p])
            && B.inCallback == w.procs[p].inCallback && B.hand == w.procs[p].hand && B.aim == w.procs[p].aim
  {
    var A := w.procs[p];
    if A.turn.None? {
      var n, each := |A.free|, 7 * k.commands + 1;
      assert (n - 1) * each == n * each - each;
    }
  }

  lemma RestsOn(k: Setting, j: Joint, p: nat)
    requires Untouched(k, j) && p < |j.boxes| && (j.world.procs[p].turn.Some? || j.world.procs[p].free != [])
    ensures var m := Think(NextAct(j.world.procs[p]));
            && CanPace(k, j, p, m) && Untouched(k, Paced(k, j, p, m))
            && Total(B => StepsLeft(k, B), Paced(k, j, p, m).world.procs) < Total(B => StepsLeft(k, B), j.world.procs)
  {
    var m := Think(NextAct(j.world.procs[p]));
    StepsLess(k, j.world, p);
    var j' := Paced(k, j, p, m);
    TotalUpdated(B => StepsLeft(k, B), j.world.procs, p, j'.world.procs[p]);
    forall q | 0 <= q < |j'.boxes| ensures AtRest(j'.sys.procs[q], j'.world.procs[q], q) {
      assert AtRest(j.sys.procs[q], j.world.procs[q], q);
    }
  }

  ghost predicate Emptied(w: World) {
    forall p :: 0 <= p < |w.procs| ==> w.procs[p].turn.None? && w.procs[p].free == []
  }

  lemma {:induction false} RunExecutors(k: Setting, joints: seq<Joint>, j: Joint)
    returns (joints': seq<Joint>, j': Joint)
    requires Leads(k, joints, j) && Untouched(k, j)
    ensures Leads(k, joints', j') && joints <= joints' && Untouched(k, j') && Emptied(j'.world)
    decreases Total(B => StepsLeft(k, B), j.world.procs)
  {
    if Emptied(j.world) {
      joints', j' := joints, j;
    } else {
      var p :| 0 <= p < |j.world.procs| && (j.world.procs[p].turn.Some? || j.world.procs[p].free != []);
      RestsOn(k, j, p);
      var more := Pacing(k, joints, j, p, Think(NextAct(j.world.procs[p])));
      joints', j' := RunExecutors(k, more, Paced(k, j, p, Think(NextAct(j.world.procs[p]))));
    }
  }

  // ---------- one callback each ----------

  /** Between callbacks, or in the only one, with nothing to take in or send. */
  ghost predicate Bare(P: E.Process, B: Proc, p: nat) {
    && P.blocks == {p} && P.incoming == [] && P.outgoing == [] && P.sends == {} && P.ctl.state != 3
    && B.free == [] && B.turn.None? && B.hand.Empty?
  }

  ghost predicate Sized(k: Setting, j: Joint, p: nat) {
    && p < |j.world.procs| == |j.sys.procs| == |j.boxes| && k.nprocs > 0 && j.ids == [] && j.world.transit == []
    && j.sys.net == []
  }

  /** Only process p has changed. */
  ghost predicate OnlyAt(j: Joint, j': Joint, p: nat)
    requires p < |j.world.procs| == |j.sys.procs|
  {
    && |j'.boxes| == |j.boxes| && j'.ids == j.ids && j'.world.transit == j.world.transit && j'.sys.net == j.sys.net
    && |j'.world.procs| == |j.world.procs| && |j'.sys.procs| == |j.sys.procs|
    && forall q :: 0 <= q < |j.sys.procs| && q != p ==>
         j'.sys.procs[q] == j.sys.procs[q] && j'.world.procs[q] == j.world.procs[q]
  }

  lemma Opens(k: Setting, j: Joint, p: nat)
    requires Sized(k, j, p) && Bare(j.sys.procs[p], j.world.procs[p], p) && !j.world.procs[p].inCallback
    requires j.sys.procs[p].place.Loop? && j.sys.procs[p].open == {p}
    ensures var j' := Paced(k, j, p, Open);
            && CanPace(k, j, p, Open) && OnlyAt(j, j', p) && Bare(j'.sys.procs[p], j'.world.procs[p], p)
            && j'.sys.procs[p].place == E.Filling(p, {}, map[]) && j'.sys.procs[p].open == {p}
            && j'.world.procs[p].inCallback
  {
  }

  lemma Fills(k: Setting, j: Joint, p: nat)
    requires Sized(k, j, p) && Bare(j.sys.procs[p], j.world.procs[p], p) && j.world.procs[p].inCallback
    requires j.sys.procs[p].place == E.Filling(p, {}, map[]) && j.sys.procs[p].open == {p}
    ensures var j' := Paced(k, j, p, Carry(E.EndFill));
            && CanPace(k, j, p, Carry(E.EndFill)) && OnlyAt(j, j', p) && Bare(j'.sys.procs[p], j'.world.procs[p], p)
            && j'.sys.procs[p].place == E.Running(p, map[]) && j'.sys.procs[p].open == {p}
            && j'.world.procs[p].inCallback
  {
  }

  lemma Closes(k: Setting, j: Joint, p: nat)
    requires Sized(k, j, p) && Bare(j.sys.procs[p], j.world.procs[p], p) && j.world.procs[p].inCallback
    requires j.sys.procs[p].place == E.Running(p, map[]) && j.sys.procs[p].open == {p}
    ensures var j' := Paced(k, j, p, Close);
            && CanPace(k, j, p, Close) && OnlyAt(j, j', p) && Bare(j'.sys.procs[p], j'.world.procs[p], p)
            && j'.sys.procs[p].place == E.Flushing(p, map[]) && j'.sys.procs[p].open == {}
  {
    assert {p} - {p} == {};
  }

  lemma Leaves(k: Setting, j: Joint, p: nat)
    requires Sized(k, j, p) && Bare(j.sys.procs[p], j.world.procs[p], p)
    requires j.sys.procs[p].place == E.Flushing(p, map[]) && j.sys.procs[p].open == {}
    ensures var j' := Paced(k, j, p, Carry(E.EndCallback));
            && CanPace(k, j, p, Carry(E.EndCallback)) && OnlyAt(j, j', p)
            && Bare(j'.sys.procs[p], j'.world.procs[p], p) && S.Idle(j'.sys.procs[p])
  {
  }

  lemma OneCallback(k: Setting, joints: seq<Joint>, j: Joint, p: nat) returns (joints': seq<Joint>, j': Joint)
    requires Leads(k, joints, j) && Sized(k, j, p) && Bare(j.sys.procs[p], j.world.procs[p], p)
    requires j.sys.procs[p].place.Loop? && j.sys.procs[p].open == {p} && !j.world.procs[p].inCallback
    ensures Leads(k, joints', j') && joints <= joints' && Sized(k, j', p) && OnlyAt(j, j', p)
    ensures Bare(j'.sys.procs[p], j'.world.procs[p], p) && S.Idle(j'.sys.procs[p])
  {
    Opens(k, j, p);
    var a := Paced(k, j, p, Open);
    joints' := Pacing(k, joints, j, p, Open);
    Fills(k, a, p);
    var b := Paced(k, a, p, Carry(E.EndFill));
    joints' := Pacing(k, joints', a, p, Carry(E.EndFill));
    Closes(k, b, p);
    var d := Paced(k, b, p, Close);
    joints' := Pacing(k, joints', b, p, Close);
    Leaves(k, d, p);
    j' := Paced(k, d, p, Carry(E.EndCallback));
    joints' := Pacing(k, joints', d, p, Carry(E.EndCallback));
  }

  /** The first m processes are idle, the others have not begun. */
  ghost predicate Halfway(k: Setting, j: Joint, m: nat) {
    && |j.world.procs| == |j.sys.procs| == |j.boxes| && k.nprocs > 0 && j.ids == [] && j.world.transit == []
    && j.sys.net == [] && m <= |j.boxes|
    && (forall p :: 0 <= p < |j.boxes| ==> Bare(j.sys.procs[p], j.world.procs[p], p))
    && (forall p :: 0 <= p < m ==> S.Idle(j.sys.procs[p]))
    && forall p :: m <= p < |j.boxes| ==>
         j.sys.procs[p].place.Loop? && j.sys.procs[p].open == {p} && !j.world.procs[p].inCallback
  }

  lemma {:induction false} RunBalancers(k: Setting, joints: seq<Joint>, j: Joint, m: nat)
    returns (joints': seq<Joint>, j': Joint)
    requires Leads(k, joints, j) && Halfway(k, j, m)
    ensures Leads(k, joints', j') && joints <= joints' && Halfway(k, j', |j'.boxes|)
    decreases |j.boxes| - m
  {
    if m == |j.boxes| {
      joints', j' := joints, j;
    } else {
      var more, next := OneCallback(k, joints, j, m);
      joints', j' := RunBalancers(k, more, next, m + 1);
    }
  }

  // ---------- the collective ----------

  /** Nothing is left to do on either side. */
  ghost predicate AllIdle(k: Setting, j: Joint) {
    && |j.world.procs| == |j.sys.procs| == |j.boxes| && k.nprocs > 0 && j.ids == [] && j.world.transit == []
    && ExecutorsIdle(j.world)
  }

  lemma IdlePace(k: Setting, j: Joint, p: nat, step: E.Step)
    requires AllIdle(k, j) && E.Enabled(j.sys, p, step) && step.ControlStep?
    ensures var j' := Paced(k, j, p, Carry(step));
            CanPace(k, j, p, Carry(step)) && j'.sys == E.Apply(j.sys, p, step) && AllIdle(k, j')
  {
  }

  lemma DecideOne(k: Setting, j: Joint, last: nat) returns (p: nat, m: Pace, j': Joint)
    requires AllIdle(k, j) && G.Calm(j.sys, last) && !G.AllDone(j.sys)
    ensures CanPace(k, j, p, m) && j' == Paced(k, j, p, m) && AllIdle(k, j') && G.Calm(j'.sys, last)
    ensures Total(P => G.Behind(P, last), j'.sys.procs) < Total(P => G.Behind(P, last), j.sys.procs)
  {
    var step;
    p, step := G.ControlNext(j.sys, last);
    IdlePace(k, j, p, step);
    m := Carry(step);
    j' := Paced(k, j, p, m);
  }

  lemma {:induction false} Decide(k: Setting, joints: seq<Joint>, j: Joint, last: nat)
    returns (joints': seq<Joint>, j': Joint)
    requires Leads(k, joints, j) && AllIdle(k, j) && G.Calm(j.sys, last)
    ensures Leads(k, joints', j') && joints <= joints' && AllIdle(k, j') && G.AllDone(j'.sys)
    decreases Total(P => G.Behind(P, last), j.sys.procs)
  {
    if G.AllDone(j.sys) {
      joints', j' := joints, j;
    } else {
      var p, m, next := DecideOne(k, j, last);
      var more := Pacing(k, joints, j, p, m);
      joints', j' := Decide(k, more, next, last);
    }
  }

  lemma BeginsHalfway(k: Setting, j: Joint)
    requires Untouched(k, j) && Emptied(j.world)
    ensures Halfway(k, j, 0)
  {
    forall p | 0 <= p < |j.boxes|
      ensures Bare(j.sys.procs[p], j.world.procs[p], p)
      ensures j.sys.procs[p].place.Loop? && j.sys.procs[p].open == {p} && !j.world.procs[p].inCallback
    {
      assert AtRest(j.sys.procs[p], j.world.procs[p], p) && E.InitProcess(j.sys.procs[p]);
    }
  }

  lemma StartsUntouched(k: Setting, j: Joint)
    requires JointStart(k, j)
    ensures Untouched(k, j)
  {
    forall p | 0 <= p < |j.boxes| ensures AtRest(j.sys.procs[p], j.world.procs[p], p) {
      assert InitialProc(j.world.procs[p], p);
    }
  }

  lemma CalmAtEnd(k: Setting, joints: seq<Joint>, j: Joint) returns (last: nat)
    requires Leads(k, joints, j) && Halfway(k, j, |j.boxes|)
    ensures G.Calm(j.sys, last) && AllIdle(k, j)
  {
    var states := SystemRun(k, joints, |joints| - 1);
    G.RunSound(states, |states| - 1);
    last := G.CalmNow(j.sys);
  }

  /** From every start: the executors run all blocks where they are, every balancer's callback says that nothing is
      left, and iexchange ends on all processes. */
  lemma CanEnd(k: Setting, start: Joint) returns (joints: seq<Joint>)
    requires JointStart(k, start)
    ensures IsJointRun(k, joints) && joints[0] == start
    ensures var j := joints[|joints| - 1];
            G.AllDone(j.sys) && ExecutorsIdle(j.world) && (|j.sys.procs| > 0 ==> Stopped(j.world))
  {
    StartsUntouched(k, start);
    var j, last;
    joints, j := RunExecutors(k, [start], start);
    BeginsHalfway(k, j);
    joints, j := RunBalancers(k, joints, j, 0);
    last := CalmAtEnd(k, joints, j);
    joints, j := Decide(k, joints, j, last);
    if |j.sys.procs| > 0 { DoneMeansStopped(k, joints, |joints| - 1, 0); }
  }
}
