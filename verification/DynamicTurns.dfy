/** What the executor's reads by lid get while the balancer releases and adds blocks: when a read is right,
    and for which parameters of load balancing every command runs on the block whose turn it is. */
module DynamicTurns {
  import opened Counting
  import opened Options
  import opened LoadBalance
  import opened MasterBlocks
  import opened DynamicProtocol
  import opened DynamicBalance

  predicate Finds(stage: Stage) {
    stage.FindBlock? || stage.FindProxy?
  }

  predicate Reads(stage: Stage) {
    stage.ReadBlock? || stage.ReadGid? || stage.ReadProxyBlock? || stage.ReadLink?
  }

  // ---------- how lids move ----------

  /** The act is a release of another block while g has the last lid. */
  predicate Displaces(P: Proc, a: Act, g: int) {
    a.SendHeld? && P.hand.Leaving? && P.hand.block.gid != g && P.gids != [] && P.gids[|P.gids| - 1] == g
  }

  lemma ReleaseMoves(P: Proc, gid: int, g: int)
    requires Inverse(P.gids, P.lids) && g in P.lids && gid in P.lids && gid != g
    ensures var Q := AfterRelease(P, gid);
            g in Q.lids && Q.lids[g] == (if P.gids[|P.gids| - 1] == g then P.lids[gid] else P.lids[g])
    ensures P.gids != [] && (P.gids[|P.gids| - 1] == g ==> P.lids[gid] < P.lids[g])
  {
    Listed(P.gids, P.lids, g);
    Listed(P.gids, P.lids, gid);
  }

  /** A block that is not being given away keeps its lid unless it is displaced, and then gets a smaller one. */
  lemma LidStep(k: Setting, w: World, p: nat, a: Act, g: int)
    requires k.nprocs > 0 && Can(k, w, p, a) && ProcInv(w.procs[p]) && g in w.procs[p].lids
        && !InHand(w.procs[p].hand, g)
    requires w.procs[p].hand.Leaving? ==> w.procs[p].hand.block.gid in w.procs[p].lids
    requires a.ReceiveBlock? ==> w.transit[a.i].block.gid !in w.procs[p].lids
    ensures var P, Q := w.procs[p], After(k, w, p, w.procs[p], a);
            && g in Q.lids
            && (Displaces(P, a, g) ==> Q.lids[g] < P.lids[g])
            && (!Displaces(P, a, g) ==> Q.lids[g] == P.lids[g])
  {
    var P := w.procs[p];
    match a
    case SendHeld => ReleaseMoves(P, P.hand.block.gid, g);
    case ExecutorStep => StepSpec(k, P);
    case _ =>
  }

  /** A read by a lid that was g's at some time gets g exactly when it is g's still. */
  lemma HitIffStill(P: Proc, g: int, lid: nat)
    requires Inverse(P.gids, P.lids) && g in P.lids && g >= 0
    ensures Hit(P, lid) == g <==> P.lids[g] == lid
  {
    Listed(P.gids, P.lids, g);
    if lid < |P.gids| {
      assert P.lids[P.gids[lid]] == lid;
    }
  }

  ghost predicate TurnInv(P: Proc) {
    P.turn.Some? ==> P.turn.value.gid >= 0
  }

  lemma TurnInvStep(k: Setting, w: World, p: nat, a: Act)
    requires k.nprocs > 0 && Can(k, w, p, a) && ProcInv(w.procs[p]) && TurnInv(w.procs[p])
    ensures TurnInv(After(k, w, p, w.procs[p], a))
  {
    if a.ExecutorStep? { StepSpec(k, w.procs[p]); }
  }

  lemma {:induction false} RunTurnInv(k: Setting, worlds: seq<World>, acts: seq<(nat, Act)>, i: nat, p: nat)
    requires IsBalanceRun(k, worlds, acts) && i < |worlds| && p < |worlds[i].procs|
    ensures TurnInv(worlds[i].procs[p])
  {
    if i == 0 {
      assert InitialProc(worlds[0].procs[p], p);
    } else {
      var own := RunStep(k, worlds, acts, i, p);
      RunTurnInv(k, worlds, acts, i - 1, p);
      if own { TurnInvStep(k, worlds[i - 1], p, acts[i - 1].1); }
    }
  }

  // ---------- when a read is right ----------

  /** From world i + 1 to world j the executor of p is between looking up block g's lid and its last read by it. */
  ghost predicate Window(worlds: seq<World>, p: nat, i: nat, j: nat, g: int, lid: nat) {
    j < |worlds| && forall m :: i < m <= j ==> p < |worlds[m].procs| && UsingLid(worlds[m].procs[p], g, lid)
  }

  ghost predicate UsingLid(P: Proc, g: int, lid: nat) {
    P.turn.Some? && P.turn.value.gid == g && Reads(P.turn.value.stage) && P.turn.value.lid == lid
  }

  ghost predicate DisplacedAt(worlds: seq<World>, acts: seq<(nat, Act)>, p: nat, m: int, g: int)
    requires |worlds| == |acts| + 1
  {
    0 <= m < |acts| && acts[m].0 == p && p < |worlds[m].procs| && Displaces(worlds[m].procs[p], acts[m].1, g)
  }

  /** The block of the turn is in the master and not in the balancer's hand. */
  lemma TurnAtHome(k: Setting, w: World, initial: World, p: nat)
    requires Inv(k, w, initial) && p < |w.procs| && w.procs[p].turn.Some?
    ensures w.procs[p].turn.value.gid in w.procs[p].lids && !InHand(w.procs[p].hand, w.procs[p].turn.value.gid)
    ensures !w.procs[p].hand.Empty? ==> w.procs[p].hand.block.gid in w.procs[p].lids
  {
    var g := w.procs[p].turn.value.gid;
    assert Home(w.procs[p], g) && Places(w, g) == Places(initial, g) <= 1;
    SumAtHas(w.procs, p, g);
    if !w.procs[p].hand.Empty? { assert Home(w.procs[p], w.procs[p].hand.block.gid); }
  }

  /** One act of any process moves a looked-up block exactly when it displaces it. */
  lemma LidInRun(k: Setting, worlds: seq<World>, acts: seq<(nat, Act)>, m: nat, p: nat, g: int)
    requires IsBalanceRun(k, worlds, acts) && m < |acts| && p < |worlds[m].procs|
    requires worlds[m].procs[p].turn.Some? && worlds[m].procs[p].turn.value.gid == g
    ensures |worlds[m + 1].procs| == |worlds[m].procs| && g in worlds[m].procs[p].lids
        && g in worlds[m + 1].procs[p].lids
    ensures DisplacedAt(worlds, acts, p, m, g) ==> worlds[m + 1].procs[p].lids[g] < worlds[m].procs[p].lids[g]
    ensures !DisplacedAt(worlds, acts, p, m, g) ==> worlds[m + 1].procs[p].lids[g] == worlds[m].procs[p].lids[g]
  {
    RunInv(k, worlds, acts, m);
    var w, q, a := worlds[m], acts[m].0, acts[m].1;
    assert StepsBy(k, w, acts[m], worlds[m + 1]);
    TurnAtHome(k, w, worlds[0], p);
    if q == p {
      if a.ReceiveBlock? { NewAtReceiver(k, w, worlds[0], p, a.i, a.src); }
      assert ProcInv(w.procs[p]);
      LidStep(k, w, p, a, g);
    }
  }

  lemma {:induction false} StillThere(k: Setting, worlds: seq<World>, acts: seq<(nat, Act)>, i: nat, j: nat, p: nat,
          g: int, lid: nat)
    requires IsBalanceRun(k, worlds, acts) && i < j && Window(worlds, p, i, j, g, lid)
    requires g in worlds[i + 1].procs[p].lids && worlds[i + 1].procs[p].lids[g] == lid
    ensures g in worlds[j].procs[p].lids && worlds[j].procs[p].lids[g] <= lid
    ensures worlds[j].procs[p].lids[g] == lid <==> forall m :: i < m < j ==> !DisplacedAt(worlds, acts, p, m, g)
    decreases j
  {
    if j > i + 1 {
      assert Window(worlds, p, i, j - 1, g, lid);
      StillThere(k, worlds, acts, i, j - 1, p, g, lid);
      assert UsingLid(worlds[j - 1].procs[p], g, lid);
      LidInRun(k, worlds, acts, j - 1, p, g);
    }
  }

  /** The executor of p looks up block g's lid at act i and reads by it at act j: the read gets block g if and
      only if in between the balancer of p released no block while g had the last lid. */
  lemma ReadIsRight(k: Setting, worlds: seq<World>, acts: seq<(nat, Act)>, i: nat, j: nat, p: nat, g: int, lid: nat)
    requires IsBalanceRun(k, worlds, acts) && i < j && Window(worlds, p, i, j, g, lid) && p < |worlds[i].procs|
    requires acts[i] == (p, ExecutorStep) && worlds[i].procs[p].turn.Some? && Finds(worlds[i].procs[p].turn.value.stage)
    ensures Hit(worlds[j].procs[p], lid) == g <==> forall m :: i < m < j ==> !DisplacedAt(worlds, acts, p, m, g)
  {
    var P := worlds[i].procs[p];
    assert StepsBy(k, worlds[i], acts[i], worlds[i + 1]);
    assert UsingLid(worlds[i + 1].procs[p], g, lid);
    RunInv(k, worlds, acts, i);
    TurnAtHome(k, worlds[i], worlds[0], p);
    assert ProcInv(P);
    Listed(P.gids, P.lids, g);
    StillThere(k, worlds, acts, i, j, p, g, lid);
    RunInv(k, worlds, acts, j);
    RunTurnInv(k, worlds, acts, j, p);
    assert UsingLid(worlds[j].procs[p], g, lid) && ProcInv(worlds[j].procs[p]);
    HitIffStill(worlds[j].procs[p], g, lid);
  }

  // ---------- every command is called once per turn ----------

  function CountCalls(calls: seq<Call>, g: int, c: nat): nat {
    if calls == [] then 0
    else CountCalls(calls[..|calls| - 1], g, c) + One(calls[|calls| - 1].gid == g && calls[|calls| - 1].cmd == c)
  }

  lemma CountCallsAppend(calls: seq<Call>, x: Call, g: int, c: nat)
    ensures CountCalls(calls + [x], g, c) == CountCalls(calls, g, c) + One(x.gid == g && x.cmd == c)
  {
    assert (calls + [x])[..|calls|] == calls;
  }

  /** Each finished turn has called every command once, the current one those before the next. */
  ghost predicate CallsOk(k: Setting, P: Proc, g: int, c: nat) {
    && (P.turn.Some? ==> P.turn.value.cmd < k.commands)
    && (c < k.commands ==>
          CountCalls(P.calls, g, c) == CountRun(P.executed, g) + One(InTurn(P.turn, g) && c < P.turn.value.cmd))
  }

  lemma CallsByCall(k: Setting, P: Proc, g: int, c: nat)
    requires CallsOk(k, P, g, c) && P.turn.Some? && P.turn.value.stage.CallCommand?
    ensures CallsOk(k, AfterStep(k, P), g, c)
  {
    var T := P.turn.value;
    CountCallsAppend(P.calls, Call(T.gid, T.cmd, T.hits), g, c);
    TurnEnds(P.executed, T.gid, g);
  }

  lemma CallsStep(k: Setting, w: World, p: nat, a: Act, g: int, c: nat)
    requires ValidSetting(k) && Can(k, w, p, a) && CallsOk(k, w.procs[p], g, c)
    ensures CallsOk(k, After(k, w, p, w.procs[p], a), g, c)
  {
    var P := w.procs[p];
    if a.ExecutorStep? && P.turn.value.stage.CallCommand? {
      CallsByCall(k, P, g, c);
    }
  }

  lemma {:induction false} RunCalls(k: Setting, worlds: seq<World>, acts: seq<(nat, Act)>, i: nat, p: nat, g: int,
          c: nat)
    requires IsBalanceRun(k, worlds, acts) && i < |worlds| && p < |worlds[i].procs|
    ensures CallsOk(k, worlds[i].procs[p], g, c)
  {
    if i == 0 {
      assert InitialProc(worlds[0].procs[p], p);
    } else {
      var own := RunStep(k, worlds, acts, i, p);
      RunCalls(k, worlds, acts, i - 1, p, g, c);
      if own { CallsStep(k, worlds[i - 1], p, acts[i - 1].1, g, c); }
    }
  }

  // ---------- when nothing is ever sent ----------

  /** A caller can check this: no process is asked for its work, or the quantile is past the end. */
  predicate NeverSends(k: Setting)
    requires k.nprocs > 0
  {
    SampleCount(k) < 1 || k.quantile > 1.0
  }

  /** The command got the entries of the block whose turn it was. */
  predicate Faithful(x: Call) {
    x.hits == [x.gid, x.gid, x.gid, x.gid]
  }

  function HitsBy(stage: Stage): nat {
    match stage
    case FindBlock => 0
    case ReadBlock => 0
    case FindProxy => 1
    case ReadGid => 1
    case ReadProxyBlock => 2
    case ReadLink => 3
    case CallCommand => 4
  }

  /** The balancer has nothing in mind, and all reads so far were right. */
  ghost predicate Undisturbed(k: Setting, P: Proc)
    requires k.nprocs > 0
  {
    && P.hand.Empty? && P.aim.None? && (SampleCount(k) < 1 ==> P.requested == 0)
    && (forall i :: 0 <= i < |P.calls| ==> Faithful(P.calls[i]))
    && (P.turn.Some? ==>
          var T := P.turn.value;
          && T.hits == seq(HitsBy(T.stage), _ => T.gid)
          && (Reads(T.stage) ==> T.gid in P.lids && P.lids[T.gid] == T.lid))
  }

  lemma NoTarget(k: Setting, P: Proc)
    requires k.nprocs > 0 && NeverSends(k) && (SampleCount(k) < 1 ==> P.requested == 0)
    ensures TargetOf(k, P).None?
  {
    if P.requested > 0 && |P.samples| == P.requested {
      var n := |P.samples| as real;
      assert RankAmong(P.work, P.samples) as real <= n < k.quantile * n;
    }
  }

  lemma UndisturbedByExecutor(k: Setting, P: Proc)
    requires k.nprocs > 0 && Undisturbed(k, P) && ProcInv(P) && P.turn.Some? && P.turn.value.gid in P.lids
    ensures Undisturbed(k, AfterStep(k, P))
  {
    var T := P.turn.value;
    Listed(P.gids, P.lids, T.gid);
    if T.stage.CallCommand? {
      UndisturbedByCall(k, P);
    } else if Reads(T.stage) {
      UndisturbedByRead(k, P);
    }
  }

  lemma UndisturbedByCall(k: Setting, P: Proc)
    requires k.nprocs > 0 && Undisturbed(k, P) && P.turn.Some? && P.turn.value.stage.CallCommand?
    ensures Undisturbed(k, AfterStep(k, P))
  {
    var T := P.turn.value;
    assert T.hits == [T.gid, T.gid, T.gid, T.gid];
    assert Faithful(Call(T.gid, T.cmd, T.hits));
    assert seq(0, _ => T.gid) == [];
  }

  lemma UndisturbedByRead(k: Setting, P: Proc)
    requires k.nprocs > 0 && Undisturbed(k, P) && Inverse(P.gids, P.lids) && P.turn.Some? && Reads(P.turn.value.stage)
    ensures Undisturbed(k, AfterStep(k, P))
  {
    var T := P.turn.value;
    Listed(P.gids, P.lids, T.gid);
    assert Hit(P, T.lid) == T.gid;
    assert T.hits + [T.gid] == seq(|T.hits| + 1, _ => T.gid);
  }

  lemma UndisturbedStep(k: Setting, w: World, initial: World, p: nat, a: Act)
    requires ValidSetting(k) && NeverSends(k) && Inv(k, w, initial) && Can(k, w, p, a) && Undisturbed(k, w.procs[p])
    ensures Undisturbed(k, After(k, w, p, w.procs[p], a))
  {
    var P := w.procs[p];
    assert ProcInv(P);
    NoTarget(k, P);
    if P.turn.Some? { TurnAtHome(k, w, initial, p); }
    match a
    case ExecutorStep => UndisturbedByExecutor(k, P);
    case ReceiveBlock(i, src) => NewAtReceiver(k, w, initial, p, i, src);
    case _ =>
  }

  lemma {:induction false} RunUndisturbed(k: Setting, worlds: seq<World>, acts: seq<(nat, Act)>, i: nat, p: nat)
    requires IsBalanceRun(k, worlds, acts) && NeverSends(k) && i < |worlds| && p < |worlds[i].procs|
    ensures Undisturbed(k, worlds[i].procs[p])
  {
    if i == 0 {
      assert InitialProc(worlds[0].procs[p], p);
    } else {
      var own := RunStep(k, worlds, acts, i, p);
      RunUndisturbed(k, worlds, acts, i - 1, p);
      if own { UndisturbedStep(k, worlds[i - 1], worlds[0], p, acts[i - 1].1); }
    }
  }

  ghost predicate AllFaithful(w: World) {
    forall p, i :: 0 <= p < |w.procs| && 0 <= i < |w.procs[p].calls| ==> Faithful(w.procs[p].calls[i])
  }

  lemma NothingSentNothingWrong(k: Setting, worlds: seq<World>, acts: seq<(nat, Act)>, i: nat)
    requires IsBalanceRun(k, worlds, acts) && NeverSends(k) && i < |worlds|
    ensures AllFaithful(worlds[i])
  {
    forall p, j | 0 <= p < |worlds[i].procs| && 0 <= j < |worlds[i].procs[p].calls|
      ensures Faithful(worlds[i].procs[p].calls[j])
    {
      RunUndisturbed(k, worlds, acts, i, p);
    }
  }

  /** When all calls were right, balancing has stopped and the executors are idle, every command has run exactly
      once on every block, on exactly one process. */
  lemma EveryBlockOnce(k: Setting, worlds: seq<World>, acts: seq<(nat, Act)>, i: nat, g: int, c: nat) returns (p: nat)
    requires IsBalanceRun(k, worlds, acts) && i < |worlds| && Stopped(worlds[i]) && ExecutorsIdle(worlds[i])
    requires AllFaithful(worlds[i]) && Places(worlds[0], g) == 1 && c < k.commands
    ensures p < |worlds[i].procs| && CountRight(worlds[i].procs[p].calls, g, c) == 1 && g in worlds[i].procs[p].lids
    ensures forall q :: 0 <= q < |worlds[i].procs| && q != p ==> CountRight(worlds[i].procs[q].calls, g, c) == 0
  {
    p := EveryTurnOnce(k, worlds, acts, i, g);
    forall q | 0 <= q < |worlds[i].procs|
      ensures CountRight(worlds[i].procs[q].calls, g, c) == CountRun(worlds[i].procs[q].executed, g)
    {
      RunCalls(k, worlds, acts, i, q, g, c);
      RightIsCall(worlds[i].procs[q].calls, g, c);
    }
  }

  /** How often command c was called with block g's entries. */
  function CountRight(calls: seq<Call>, g: int, c: nat): nat {
    if calls == [] then 0
    else
      var x := calls[|calls| - 1];
      CountRight(calls[..|calls| - 1], g, c) + One(x.hits == [g, g, g, g] && x.cmd == c)
  }

  lemma {:induction false} RightIsCall(calls: seq<Call>, g: int, c: nat)
    requires forall i :: 0 <= i < |calls| ==> Faithful(calls[i])
    ensures CountRight(calls, g, c) == CountCalls(calls, g, c)
  {
    if calls != [] {
      RightIsCall(calls[..|calls| - 1], g, c);
      var x := calls[|calls| - 1];
      assert x.hits[0] == x.gid;
    }
  }
}
