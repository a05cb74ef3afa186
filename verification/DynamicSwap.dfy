/** A whole run, from five free blocks on two processes until load balancing has stopped and the executors are
    idle, in which a received block takes the place of the one whose turn it is. */
module DynamicSwap {
  import opened Counting
  import opened Options
  import opened LoadBalance
  import opened MasterBlocks
  import opened DynamicProtocol
  import opened DynamicBalance
  import opened DynamicTurns
  import opened DynamicRuns

  function Single(): Setting {
    Setting(2, 1, 1.0, 0.5)
  }

  // ---------- a turn ----------

  /** The executor takes n steps. */
  function Steps(k: Setting, P: Proc, n: nat): Proc {
    if n == 0 then P else AfterStep(k, Steps(k, P, n - 1))
  }

  lemma {:induction false} StepsAfterOne(k: Setting, P: Proc, n: nat)
    ensures Steps(k, P, n + 1) == Steps(k, AfterStep(k, P), n)
  {
    if n > 0 { StepsAfterOne(k, P, n - 1); } else { assert Steps(k, P, 0) == P; }
  }

  /** What a turn of one command comes to when its first read got `first` and nothing moves any more. */
  lemma RestOfTurn(k: Setting, P: Proc, g: int, lid: nat, first: int)
    requires k.commands == 1 && g in P.lids && 0 <= P.lids[g] < |P.gids| && P.gids[P.lids[g]] == g
    requires P.turn == Some(Turn(g, 0, FindProxy, lid, [first]))
    ensures Steps(k, P, 5) == P.(turn := None, executed := P.executed + [g],
        calls := P.calls + [Call(g, 0, [first, g, g, g])])
  {
    assert [first] + [g] == [first, g] && [first, g] + [g] == [first, g, g] && [first, g, g] + [g] == [first, g, g, g];
    var at := P.lids[g];
    assert Steps(k, P, 1) == P.(turn := Some(Turn(g, 0, ReadGid, at, [first]))) by { assert Steps(k, P, 0) == P; }
    assert Steps(k, P, 2) == P.(turn := Some(Turn(g, 0, ReadProxyBlock, at, [first, g])));
    assert Steps(k, P, 3) == P.(turn := Some(Turn(g, 0, ReadLink, at, [first, g, g])));
    assert Steps(k, P, 4) == P.(turn := Some(Turn(g, 0, CallCommand, at, [first, g, g, g])));
  }

  /** From the first read on. */
  lemma TurnFromRead(k: Setting, P: Proc, g: int, lid: nat)
    requires k.commands == 1 && g in P.lids && 0 <= P.lids[g] < |P.gids| && P.gids[P.lids[g]] == g
    requires P.turn == Some(Turn(g, 0, ReadBlock, lid, []))
    ensures Steps(k, P, 6)
         == P.(turn := None, executed := P.executed + [g], calls := P.calls + [Call(g, 0, [Hit(P, lid), g, g, g])])
  {
    assert [] + [Hit(P, lid)] == [Hit(P, lid)];
    RestOfTurn(k, AfterStep(k, P), g, lid, Hit(P, lid));
    StepsAfterOne(k, P, 5);
  }

  lemma WholeTurn(k: Setting, P: Proc, g: int)
    requires k.commands == 1 && g in P.lids && 0 <= P.lids[g] < |P.gids| && P.gids[P.lids[g]] == g
    requires P.turn == Some(Turn(g, 0, FindBlock, 0, []))
    ensures Steps(k, P, 7) == P.(turn := None, executed := P.executed + [g],
        calls := P.calls + [Call(g, 0, [g, g, g, g])])
  {
    TurnFromRead(k, AfterStep(k, P), g, P.lids[g]);
    StepsAfterOne(k, P, 6);
  }

  function Rank(stage: Stage): nat {
    match stage
    case FindBlock => 0
    case ReadBlock => 1
    case FindProxy => 2
    case ReadGid => 3
    case ReadProxyBlock => 4
    case ReadLink => 5
    case CallCommand => 6
  }

  lemma NextStage(k: Setting, P: Proc)
    requires P.turn.Some? && Rank(P.turn.value.stage) < 6
    ensures AfterStep(k, P).turn.Some? && Rank(AfterStep(k, P).turn.value.stage) == Rank(P.turn.value.stage) + 1
  {
  }

  lemma {:induction false} TurnGoesOn(k: Setting, P: Proc, n: nat)
    requires P.turn.Some? && Rank(P.turn.value.stage) + n <= 6
    ensures Steps(k, P, n).turn.Some? && Rank(Steps(k, P, n).turn.value.stage) == Rank(P.turn.value.stage) + n
  {
    if n > 0 {
      TurnGoesOn(k, P, n - 1);
      NextStage(k, Steps(k, P, n - 1));
    }
  }

  // ---------- two processes ----------

  /** A run has led to this world of two processes. */
  ghost predicate Leads(worlds: seq<World>, acts: seq<(nat, Act)>, w: World) {
    IsBalanceRun(Single(), worlds, acts) && worlds[|acts|] == w && |w.procs| == 2
  }

  lemma Acting(worlds: seq<World>, acts: seq<(nat, Act)>, w: World, p: nat, a: Act, v: World)
    returns (worlds': seq<World>, acts': seq<(nat, Act)>)
    requires Leads(worlds, acts, w) && Can(Single(), w, p, a) && v == Next(Single(), w, p, a)
    ensures Leads(worlds', acts', v) && worlds'[0] == worlds[0]
  {
    worlds', acts' := Extend(Single(), worlds, acts, p, a);
  }

  function With(w: World, p: nat, P: Proc): World
    requires p < |w.procs|
  {
    w.(procs := w.procs[p := P])
  }

  lemma Executing1(worlds: seq<World>, acts: seq<(nat, Act)>, w: World, p: nat, P: Proc)
    returns (worlds': seq<World>, acts': seq<(nat, Act)>)
    requires p < |w.procs| && Leads(worlds, acts, With(w, p, P)) && P.turn.Some?
    ensures Leads(worlds', acts', With(w, p, AfterStep(Single(), P))) && worlds'[0] == worlds[0]
  {
    var v := With(w, p, AfterStep(Single(), P));
    assert v.procs == With(w, p, P).procs[p := AfterStep(Single(), P)];
    worlds', acts' := Acting(worlds, acts, With(w, p, P), p, ExecutorStep, v);
  }

  /** The executor of process p takes n steps. */
  lemma {:induction false} Executing(worlds: seq<World>, acts: seq<(nat, Act)>, w: World, p: nat, P: Proc, n: nat)
    returns (worlds': seq<World>, acts': seq<(nat, Act)>)
    requires p < |w.procs| && Leads(worlds, acts, With(w, p, P))
    requires P.turn.Some? && Rank(P.turn.value.stage) + n <= 7
    ensures Leads(worlds', acts', With(w, p, Steps(Single(), P, n))) && worlds'[0] == worlds[0]
  {
    if n == 0 {
      worlds', acts' := worlds, acts;
    } else {
      worlds', acts' := Executing(worlds, acts, w, p, P, n - 1);
      var Q := Steps(Single(), P, n - 1);
      assert Q.turn.Some? by { TurnGoesOn(Single(), P, n - 1); }
      worlds', acts' := Executing1(worlds', acts', w, p, Q);
    }
  }

  /** The executor of process p grabs its heaviest block and takes its turn on it, with nothing moving. */
  lemma TakesTurn(worlds: seq<World>, acts: seq<(nat, Act)>, w: World, p: nat, P: Proc, g: int, Q: Proc)
    returns (worlds': seq<World>, acts': seq<(nat, Act)>)
    requires p < |w.procs| && w.procs[p] == P && Leads(worlds, acts, w)
    requires P.turn.None? && P.free != [] && Grabbed(P).gid == g
    requires g in P.lids && 0 <= P.lids[g] < |P.gids| && P.gids[P.lids[g]] == g
    requires Q == AfterGrab(P).(executed := P.executed + [g], calls := P.calls + [Call(g, 0, [g, g, g, g])])
    ensures Leads(worlds', acts', With(w, p, Q)) && worlds'[0] == worlds[0]
  {
    var T := AfterGrab(P).(turn := Some(Turn(g, 0, FindBlock, 0, [])));
    worlds', acts' := Acting(worlds, acts, w, p, ExecutorGrab, With(w, p, T));
    worlds', acts' := Executing(worlds', acts', w, p, T, 7);
    WholeTurn(Single(), T, g);
  }

  // ---------- the blocks ----------

  /** Process 1 starts with two blocks. */
  function Two(): Proc {
    Proc([FreeBlock(3, 40, 1, 1), FreeBlock(4, 30, 1, 1)], 70, false, Empty, false, 0, [], None, None, [], [],
         [3, 4], map[3 := 0, 4 := 1])
  }

  function Five(): World {
    World([Three(), Two()], [], [])
  }

  lemma SumOfTwo()
    ensures SumWork(Two().free) == 70
  {
    var free := Two().free;
    assert free == ([] + [free[0]]) + [free[1]];
    SumAppend([], free[0]);
    SumAppend([] + [free[0]], free[1]);
  }

  lemma FirstIsInitial()
    ensures InitialProc(Three(), 0)
  {
    SumOfThree();
  }

  lemma SecondIsInitial()
    ensures InitialProc(Two(), 1)
  {
    SumOfTwo();
  }

  lemma FiveIsInitial()
    ensures Leads([Five()], [], Five())
  {
    FirstIsInitial();
    SecondIsInitial();
    var w := Five();
    forall p, q, i, j | 0 <= p < q < 2 && 0 <= i < |w.procs[p].gids| && 0 <= j < |w.procs[q].gids|
      ensures w.procs[p].gids[i] != w.procs[q].gids[j]
    {
      assert w.procs[p].gids == [0, 1, 2] && w.procs[q].gids == [3, 4];
    }
    forall p | 0 <= p < 2 ensures InitialProc(w.procs[p], p) {
      assert w.procs[p] == if p == 0 then Three() else Two();
    }
    assert Initial(Single(), w);
  }

  lemma HeaviestOne(b: FreeBlock)
    ensures Heaviest([b], 1) == 0 && SwapOut([b], 0) == []
  {
  }

  lemma HeaviestTwo(a: FreeBlock, b: FreeBlock)
    ensures Heaviest([a, b], 2) == if b.work > a.work then 1 else 0
    ensures SwapOut([a, b], 0) == [b] && SwapOut([a, b], 1) == [a]
  {
    assert Heaviest([a, b], 1) == 0;
  }

  // ---------- the run ----------

  function Pair(A: Proc, B: Proc, transit: seq<Move>): World {
    World([A, B], transit, [])
  }

  /** Process 0, or process 1, acts, and no notice is on the way. */
  lemma ActsFirst(worlds: seq<World>, acts: seq<(nat, Act)>, w: World, a: Act, A: Proc, B: Proc, T: seq<Move>,
                  A': Proc)
    returns (worlds': seq<World>, acts': seq<(nat, Act)>)
    requires w == Pair(A, B, T) && Leads(worlds, acts, w) && Can(Single(), w, 0, a)
    requires A' == After(Single(), w, 0, A, a) && !a.SendNotice? && !a.ReceiveNotice?
    ensures Leads(worlds', acts', Pair(A', B, TransitAfter(A, T, a))) && worlds'[0] == worlds[0]
  {
    assert [A, B][0 := A'] == [A', B];
    worlds', acts' := Acting(worlds, acts, w, 0, a, Pair(A', B, TransitAfter(A, T, a)));
  }

  lemma ActsSecond(worlds: seq<World>, acts: seq<(nat, Act)>, w: World, a: Act, A: Proc, B: Proc, T: seq<Move>,
                   B': Proc)
    returns (worlds': seq<World>, acts': seq<(nat, Act)>)
    requires w == Pair(A, B, T) && Leads(worlds, acts, w) && Can(Single(), w, 1, a)
    requires B' == After(Single(), w, 1, B, a) && !a.SendNotice? && !a.ReceiveNotice?
    ensures Leads(worlds', acts', Pair(A, B', TransitAfter(B, T, a))) && worlds'[0] == worlds[0]
  {
    assert [A, B][1 := B'] == [A, B'];
    worlds', acts' := Acting(worlds, acts, w, 1, a, Pair(A, B', TransitAfter(B, T, a)));
  }

  /** Process 0 tells process 1 about its work, or the other way round. */
  lemma FirstTells(worlds: seq<World>, acts: seq<(nat, Act)>, A: Proc, B: Proc, T: seq<Move>, B': Proc)
    returns (worlds': seq<World>, acts': seq<(nat, Act)>)
    requires Leads(worlds, acts, Pair(A, B, T)) && A.inCallback && B.inCallback && B.samples == []
    requires B' == B.(samples := [WorkOf(0, A)])
    ensures Leads(worlds', acts', Pair(A, B', T)) && worlds'[0] == worlds[0]
  {
    var notice := Notice(1, WorkOf(0, A));
    assert [A, B][0 := A] == [A, B] && [] + [notice] == [notice];
    worlds', acts' := Acting(worlds, acts, Pair(A, B, T), 0, SendNotice(1), World([A, B], T, [notice]));
    assert [A, B][1 := B'] == [A, B'] && [notice][..0] + [notice][1..] == [];
    assert IsUpdate([], notice.info, [notice.info]);
    worlds', acts' := Acting(worlds', acts', World([A, B], T, [notice]), 1, ReceiveNotice(0, [notice.info]),
                             Pair(A, B', T));
  }

  lemma SecondTells(worlds: seq<World>, acts: seq<(nat, Act)>, A: Proc, B: Proc, T: seq<Move>, A': Proc)
    returns (worlds': seq<World>, acts': seq<(nat, Act)>)
    requires Leads(worlds, acts, Pair(A, B, T)) && A.inCallback && B.inCallback && A.samples == []
    requires A' == A.(samples := [WorkOf(1, B)])
    ensures Leads(worlds', acts', Pair(A', B, T)) && worlds'[0] == worlds[0]
  {
    var notice := Notice(0, WorkOf(1, B));
    assert [A, B][1 := B] == [A, B] && [] + [notice] == [notice];
    worlds', acts' := Acting(worlds, acts, Pair(A, B, T), 1, SendNotice(0), World([A, B], T, [notice]));
    assert [A, B][0 := A'] == [A', B] && [notice][..0] + [notice][1..] == [];
    assert IsUpdate([], notice.info, [notice.info]);
    worlds', acts' := Acting(worlds', acts', World([A, B], T, [notice]), 0, ReceiveNotice(0, [notice.info]),
                             Pair(A', B, T));
  }

  /** What the balancer of one process does from its aim to the block's leaving it. */
  lemma GivesAway(P: Proc, target: WorkInfo, b: FreeBlock, rest: seq<FreeBlock>) returns (G: Proc, L: Proc, Q: Proc)
    requires P.inCallback && P.hand.Empty? && P.aim == Some((P.work, target)) && P.free != []
    requires Grabbed(P) == b && AfterGrab(P).free == rest != []
    requires (P.work - target.procWork) % WRAP > b.work && b.srcProc != target.procRank
    requires b.gid in P.lids && 0 <= P.lids[b.gid] < |P.gids|
    ensures G == AfterGrab(P).(hand := Holding(b.(originProc := NO_PROC))) && Passes(G, b.(originProc := NO_PROC))
    ensures L == G.(hand := Leaving(b.(originProc := NO_PROC)))
    ensures Q == AfterRelease(L, b.gid).(hand := Empty, aim := None)
  {
    G := AfterGrab(P).(hand := Holding(b.(originProc := NO_PROC)));
    L := G.(hand := Leaving(b.(originProc := NO_PROC)));
    Q := AfterRelease(L, b.gid).(hand := Empty, aim := None);
  }

  /** Both ask for work infos; process 1 hears of the work of process 0 and aims at it. */
  lemma Heavier() returns (worlds: seq<World>, acts: seq<(nat, Act)>, A: Proc, B: Proc, info: WorkInfo)
    ensures Leads(worlds, acts, Pair(A, B, [])) && worlds[0] == Five()
    ensures A == Three().(inCallback := true, requested := 1) && info == WorkInfo(0, 2, 10, 16, 3)
    ensures B == Two().(inCallback := true, requested := 1, samples := [info], aim := Some((70, info)))
  {
    FiveIsInitial();
    worlds, acts := [Five()], [];
    assert SampleCount(Single()) == 1;
    A := Three().(inCallback := true);
    worlds, acts := ActsFirst(worlds, acts, Pair(Three(), Two(), []), BeginCallback, Three(), Two(), [], A);
    var A' := A.(requested := 1);
    worlds, acts := ActsFirst(worlds, acts, Pair(A, Two(), []), Request, A, Two(), [], A');
    var B' := Two().(inCallback := true);
    worlds, acts := ActsSecond(worlds, acts, Pair(A', Two(), []), BeginCallback, A', Two(), [], B');
    B := B'.(requested := 1);
    worlds, acts := ActsSecond(worlds, acts, Pair(A', B', []), Request, A', B', [], B);
    A, B' := A', B;
    HeaviestOfThree();
    info := WorkOf(0, A);
    B := B'.(samples := [info]);
    worlds, acts := FirstTells(worlds, acts, A, B', [], B);
    B' := B.(aim := Some((70, info)));
    AimsLightest(B, info);
    worlds, acts := ActsSecond(worlds, acts, Pair(A, B, []), Aim, A, B, [], B');
    B := B';
  }

  lemma AimsLightest(P: Proc, info: WorkInfo)
    requires P.requested == 1 && P.samples == [info] && info.procWork <= P.work
    ensures TargetOf(Single(), P) == Some(info)
  {
    assert P.samples[1..] == [];
    assert RankAmong(P.work, [info]) == 1;
    assert TargetIndex(P.work, [info], 0.5) == Some(0);
  }

  /** Block 3 is on the way to process 0. */
  lemma FirstSent() returns (worlds: seq<World>, acts: seq<(nat, Act)>, A: Proc, B: Proc)
    ensures Leads(worlds, acts, Pair(A, B, [Move(0, FreeBlock(3, 40, 1, NO_PROC))])) && worlds[0] == Five()
    ensures A == Three().(inCallback := true, requested := 1) && B.inCallback && B.hand.Empty? && B.aim.None?
    ensures B.free == [FreeBlock(4, 30, 1, 1)] && B.work == 30 && B.turn.None? && B.executed == [] && B.calls == []
    ensures B.gids == [4] && 4 in B.lids && B.lids[4] == 0
  {
    var info;
    worlds, acts, A, B, info := Heavier();
    var b, rest := FreeBlock(3, 40, 1, 1), FreeBlock(4, 30, 1, 1);
    HeaviestTwo(b, rest);
    var G, L, Q := GivesAway(B, info, b, [rest]);
    worlds, acts := ActsSecond(worlds, acts, Pair(A, B, []), BalancerGrab, A, B, [], G);
    worlds, acts := ActsSecond(worlds, acts, Pair(A, G, []), Decide, A, G, [], L);
    var moves := [Move(0, b.(originProc := NO_PROC))];
    assert [] + moves == moves;
    worlds, acts := ActsSecond(worlds, acts, Pair(A, L, []), SendHeld, A, L, [], Q);
    B := Q;
    assert SwapOut([3, 4], 0) == [4];
  }

  /** Process 1 takes its turn on block 4 and tells that it is idle. */
  lemma ToldIdle() returns (worlds: seq<World>, acts: seq<(nat, Act)>, A: Proc, B: Proc)
    ensures Leads(worlds, acts, Pair(A, B, [Move(0, FreeBlock(3, 40, 1, NO_PROC))])) && worlds[0] == Five()
    ensures A == Three().(inCallback := true, requested := 1, samples := [Idle(1)])
    ensures B.inCallback && B.hand.Empty? && B.free == [] && B.work == 0 && B.turn.None?
    ensures B.calls == [Call(4, 0, [4, 4, 4, 4])] && B.gids == [4] && 4 in B.lids && B.lids[4] == 0
  {
    worlds, acts, A, B := FirstSent();
    var T := [Move(0, FreeBlock(3, 40, 1, NO_PROC))];
    HeaviestOne(FreeBlock(4, 30, 1, 1));
    var Q := AfterGrab(B).(executed := B.executed + [4], calls := B.calls + [Call(4, 0, [4, 4, 4, 4])]);
    worlds, acts := TakesTurn(worlds, acts, Pair(A, B, T), 1, B, 4, Q);
    assert With(Pair(A, B, T), 1, Q) == Pair(A, Q, T) by { assert [A, B][1 := Q] == [A, Q]; }
    assert [] + [Call(4, 0, [4, 4, 4, 4])] == [Call(4, 0, [4, 4, 4, 4])];
    B := Q;
    var A' := A.(samples := [Idle(1)]);
    worlds, acts := SecondTells(worlds, acts, A, B, T, A');
    A := A';
  }

  /** The executor of process 0 looks up block 2, the last of three, and the balancer aims at process 1. */
  lemma LookedUp() returns (worlds: seq<World>, acts: seq<(nat, Act)>, A: Proc, B: Proc)
    ensures Leads(worlds, acts, Pair(A, B, [Move(0, FreeBlock(3, 40, 1, NO_PROC))])) && worlds[0] == Five()
    ensures A == Three().(inCallback := true, requested := 1, samples := [Idle(1)], free := Three().free[..2],
                          work := 6, turn := Some(Turn(2, 0, ReadBlock, 2, [])), aim := Some((6, Idle(1))))
    ensures B.inCallback && B.hand.Empty? && B.free == [] && B.work == 0 && B.turn.None?
    ensures B.calls == [Call(4, 0, [4, 4, 4, 4])] && B.gids == [4] && 4 in B.lids && B.lids[4] == 0
  {
    worlds, acts, A, B := ToldIdle();
    var T := [Move(0, FreeBlock(3, 40, 1, NO_PROC))];
    HeaviestOfThree();
    var Q := AfterGrab(A).(turn := Some(Turn(2, 0, FindBlock, 0, [])));
    worlds, acts := ActsFirst(worlds, acts, Pair(A, B, T), ExecutorGrab, A, B, T, Q);
    A := AfterStep(Single(), Q);
    worlds, acts := ActsFirst(worlds, acts, Pair(Q, B, T), ExecutorStep, Q, B, T, A);
    AimsLightest(A, Idle(1));
    Q := A.(aim := Some((6, Idle(1))));
    worlds, acts := ActsFirst(worlds, acts, Pair(A, B, T), Aim, A, B, T, Q);
    A := Q;
  }

  function Both(): seq<Move> {
    [Move(0, FreeBlock(3, 40, 1, NO_PROC)), Move(1, FreeBlock(0, 5, 0, NO_PROC))]
  }

  /** Process 0 gives block 0 away, which puts block 2 at lid 0. */
  lemma SecondSent() returns (worlds: seq<World>, acts: seq<(nat, Act)>, A: Proc, B: Proc)
    ensures Leads(worlds, acts, Pair(A, B, Both())) && worlds[0] == Five()
    ensures A.inCallback && A.hand.Empty? && A.free == [FreeBlock(1, 1, 0, 0)] && A.work == 1
        && A.turn == Some(Turn(2, 0, ReadBlock, 2, [])) && A.calls == []
    ensures A.gids == [2, 1] && 1 in A.lids && 2 in A.lids && A.lids[2] == 0 && A.lids[1] == 1
    ensures B.inCallback && B.hand.Empty? && B.free == [] && B.work == 0 && B.turn.None?
    ensures B.calls == [Call(4, 0, [4, 4, 4, 4])] && B.gids == [4] && 4 in B.lids && B.lids[4] == 0
  {
    worlds, acts, A, B := LookedUp();
    var T := [Move(0, FreeBlock(3, 40, 1, NO_PROC))];
    HeaviestOfThree();
    var b := FreeBlock(0, 5, 0, 0);
    var G, L, Q := GivesAway(A, Idle(1), b, [FreeBlock(1, 1, 0, 0)]);
    worlds, acts := ActsFirst(worlds, acts, Pair(A, B, T), BalancerGrab, A, B, T, G);
    worlds, acts := ActsFirst(worlds, acts, Pair(G, B, T), Decide, G, B, T, L);
    var move := Move(1, b.(originProc := NO_PROC));
    assert T + [move] == Both();
    worlds, acts := ActsFirst(worlds, acts, Pair(L, B, T), SendHeld, L, B, T, Q);
    A := Q;
    assert SwapOut([0, 1, 2], 0) == [2, 1];
  }

  /** Process 0 adds block 3, at the lid the executor still means block 2 by, and the command is handed block 3. */
  lemma Swapped() returns (worlds: seq<World>, acts: seq<(nat, Act)>, A: Proc, B: Proc)
    ensures Leads(worlds, acts, Pair(A, B, Both()[1..])) && worlds[0] == Five()
    ensures A.inCallback && A.hand.Empty? && A.free == [FreeBlock(1, 1, 0, 0), FreeBlock(3, 40, 1, NO_PROC)]
        && A.turn.None? && A.calls == [Call(2, 0, [3, 2, 2, 2])]
    ensures A.gids == [2, 1, 3] && 1 in A.lids && 3 in A.lids && A.lids[1] == 1 && A.lids[3] == 2
    ensures B.inCallback && B.hand.Empty? && B.free == [] && B.work == 0 && B.turn.None?
    ensures B.calls == [Call(4, 0, [4, 4, 4, 4])] && B.gids == [4] && 4 in B.lids && B.lids[4] == 0
  {
    worlds, acts, A, B := SecondSent();
    var b := FreeBlock(3, 40, 1, NO_PROC);
    var Q := AfterMasterAdd(AfterAdd(A, b), 3);
    assert Both()[..0] + Both()[1..] == Both()[1..];
    worlds, acts := ActsFirst(worlds, acts, Pair(A, B, Both()), ReceiveBlock(0, 1), A, B, Both(), Q);
    assert [A.free[0]] + [b] == [A.free[0], b] && [2, 1] + [3] == [2, 1, 3];
    TurnFromRead(Single(), Q, 2, 2);
    A := Steps(Single(), Q, 6);
    var w := Pair(Q, B, Both()[1..]);
    assert With(w, 0, Q) == w by { assert [Q, B][0 := Q] == [Q, B]; }
    worlds, acts := Executing(worlds, acts, w, 0, Q, 6);
    assert With(w, 0, A) == Pair(A, B, Both()[1..]) by { assert [Q, B][0 := A] == [A, B]; }
    assert [] + [Call(2, 0, [3, 2, 2, 2])] == [Call(2, 0, [3, 2, 2, 2])];
  }

  /** Process 0 takes its turns on blocks 3 and 1. */
  lemma FirstEmptied() returns (worlds: seq<World>, acts: seq<(nat, Act)>, A: Proc, B: Proc)
    ensures Leads(worlds, acts, Pair(A, B, Both()[1..])) && worlds[0] == Five()
    ensures A.inCallback && A.hand.Empty? && A.free == [] && A.turn.None?
        && A.calls == [Call(2, 0, [3, 2, 2, 2]), Call(3, 0, [3, 3, 3, 3]), Call(1, 0, [1, 1, 1, 1])]
    ensures B.inCallback && B.hand.Empty? && B.free == [] && B.work == 0 && B.turn.None?
    ensures B.calls == [Call(4, 0, [4, 4, 4, 4])] && B.gids == [4] && 4 in B.lids && B.lids[4] == 0
  {
    worlds, acts, A, B := Swapped();
    var T := Both()[1..];
    HeaviestTwo(A.free[0], A.free[1]);
    HeaviestOne(A.free[0]);
    var Q := AfterGrab(A).(executed := A.executed + [3], calls := A.calls + [Call(3, 0, [3, 3, 3, 3])]);
    worlds, acts := TakesTurn(worlds, acts, Pair(A, B, T), 0, A, 3, Q);
    assert With(Pair(A, B, T), 0, Q) == Pair(Q, B, T) by { assert [A, B][0 := Q] == [Q, B]; }
    A := AfterGrab(Q).(executed := Q.executed + [1], calls := Q.calls + [Call(1, 0, [1, 1, 1, 1])]);
    worlds, acts := TakesTurn(worlds, acts, Pair(Q, B, T), 0, Q, 1, A);
    assert With(Pair(Q, B, T), 0, A) == Pair(A, B, T) by { assert [Q, B][0 := A] == [A, B]; }
    assert A.calls == [Call(2, 0, [3, 2, 2, 2]), Call(3, 0, [3, 3, 3, 3]), Call(1, 0, [1, 1, 1, 1])];
  }

  /** Process 1 adds block 0. */
  lemma SecondReceived() returns (worlds: seq<World>, acts: seq<(nat, Act)>, A: Proc, B: Proc)
    ensures Leads(worlds, acts, Pair(A, B, [])) && worlds[0] == Five()
    ensures A.inCallback && A.hand.Empty? && A.free == [] && A.turn.None?
        && A.calls == [Call(2, 0, [3, 2, 2, 2]), Call(3, 0, [3, 3, 3, 3]), Call(1, 0, [1, 1, 1, 1])]
    ensures B.inCallback && B.hand.Empty? && B.free == [FreeBlock(0, 5, 0, NO_PROC)] && B.turn.None?
    ensures B.calls == [Call(4, 0, [4, 4, 4, 4])] && B.gids == [4, 0] && 0 in B.lids && B.lids[0] == 1
  {
    worlds, acts, A, B := FirstEmptied();
    var T, b := Both()[1..], FreeBlock(0, 5, 0, NO_PROC);
    assert T == [Move(1, b)] && T[..0] + T[1..] == [] && [] + [b] == [b] && [4] + [0] == [4, 0];
    var P := AfterMasterAdd(AfterAdd(B, b), 0);
    worlds, acts := ActsSecond(worlds, acts, Pair(A, B, T), ReceiveBlock(0, 0), A, B, T, P);
    B := P;
  }

  /** Process 1 takes its turn on block 0. */
  lemma SecondEmptied() returns (worlds: seq<World>, acts: seq<(nat, Act)>, A: Proc, B: Proc)
    ensures Leads(worlds, acts, Pair(A, B, [])) && worlds[0] == Five()
    ensures A.inCallback && A.hand.Empty? && A.free == [] && A.turn.None?
        && A.calls == [Call(2, 0, [3, 2, 2, 2]), Call(3, 0, [3, 3, 3, 3]), Call(1, 0, [1, 1, 1, 1])]
    ensures B.inCallback && B.hand.Empty? && B.free == [] && B.turn.None?
        && B.calls == [Call(4, 0, [4, 4, 4, 4]), Call(0, 0, [0, 0, 0, 0])]
  {
    worlds, acts, A, B := SecondReceived();
    HeaviestOne(B.free[0]);
    var Q := AfterGrab(B).(executed := B.executed + [0], calls := B.calls + [Call(0, 0, [0, 0, 0, 0])]);
    worlds, acts := TakesTurn(worlds, acts, Pair(A, B, []), 1, B, 0, Q);
    assert With(Pair(A, B, []), 1, Q) == Pair(A, Q, []) by { assert [A, B][1 := Q] == [A, Q]; }
    B := Q;
    assert B.calls == [Call(4, 0, [4, 4, 4, 4]), Call(0, 0, [0, 0, 0, 0])];
  }

  /** A run that ends with everything done: block 3 takes lid 2 while the executor still means block 2 by it, the
      command of block 2's turn is handed block 3 with the proxy of block 2, block 3 is handed out again in its own
      turn, and block 2 never is. */
  lemma BlockRunTwice() returns (worlds: seq<World>, acts: seq<(nat, Act)>)
    ensures IsBalanceRun(Single(), worlds, acts) && worlds[0] == Five()
    ensures Stopped(worlds[|acts|]) && ExecutorsIdle(worlds[|acts|]) && |worlds[|acts|].procs| == 2
    ensures worlds[|acts|].procs[0].calls
         == [Call(2, 0, [3, 2, 2, 2]), Call(3, 0, [3, 3, 3, 3]), Call(1, 0, [1, 1, 1, 1])]
    ensures worlds[|acts|].procs[1].calls == [Call(4, 0, [4, 4, 4, 4]), Call(0, 0, [0, 0, 0, 0])]
  {
    var A, B;
    worlds, acts, A, B := SecondEmptied();
    var P := A.(inCallback := false, done := true, aim := None);
    worlds, acts := ActsFirst(worlds, acts, Pair(A, B, []), EndCallback, A, B, [], P);
    var Q := B.(inCallback := false, done := true, aim := None);
    worlds, acts := ActsSecond(worlds, acts, Pair(P, B, []), EndCallback, P, B, [], Q);
  }
}
