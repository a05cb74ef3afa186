/** For every setting in which blocks may be sent, a run in which a command gets the wrong block. */
module DynamicRuns {
  import opened Counting
  import opened Options
  import opened LoadBalance
  import opened MasterBlocks
  import opened DynamicProtocol
  import opened DynamicBalance
  import opened DynamicTurns

  // ---------- extending a run ----------

  lemma Extend(k: Setting, worlds: seq<World>, acts: seq<(nat, Act)>, p: nat, a: Act)
    returns (worlds': seq<World>, acts': seq<(nat, Act)>)
    requires IsBalanceRun(k, worlds, acts) && Can(k, worlds[|acts|], p, a)
    ensures IsBalanceRun(k, worlds', acts') && worlds'[|acts'|] == Next(k, worlds[|acts|], p, a)
    ensures worlds'[0] == worlds[0]
  {
    worlds', acts' := worlds + [Next(k, worlds[|acts|], p, a)], acts + [(p, a)];
    forall i | 0 <= i < |acts'| ensures StepsBy(k, worlds'[i], acts'[i], worlds'[i + 1]) {
      if i < |acts| { assert StepsBy(k, worlds[i], acts[i], worlds[i + 1]); }
    }
  }

  /** The first process acts; only it is looked at. */
  lemma FirstActs(k: Setting, worlds: seq<World>, acts: seq<(nat, Act)>, a: Act, P: Proc, Q: Proc)
    returns (worlds': seq<World>, acts': seq<(nat, Act)>)
    requires IsBalanceRun(k, worlds, acts) && Can(k, worlds[|acts|], 0, a) && worlds[|acts|].procs[0] == P
    requires !a.ReceiveBlock? && Q == After(k, worlds[|acts|], 0, P, a)
    ensures IsBalanceRun(k, worlds', acts') && |worlds'[|acts'|].procs| == |worlds[|acts|].procs|
    ensures worlds'[|acts'|].procs[0] == Q
  {
    worlds', acts' := Extend(k, worlds, acts, 0, a);
  }

  // ---------- the run ----------

  /** Process 0 starts with three blocks, the heaviest last; the others have none. */
  function Three(): Proc {
    Proc([FreeBlock(0, 5, 0, 0), FreeBlock(1, 1, 0, 0), FreeBlock(2, 10, 0, 0)], 16, false, Empty, false, 0, [], None,
         None, [], [], [0, 1, 2], map[0 := 0, 1 := 1, 2 := 2])
  }

  function Nobody(): Proc {
    Proc([], 0, false, Empty, false, 0, [], None, None, [], [], [], map[])
  }

  lemma SumOfThree()
    ensures SumWork(Three().free) == 16
  {
    var free := Three().free;
    assert free == ([] + [free[0]]) + [free[1]] + [free[2]];
    SumAppend([], free[0]);
    SumAppend([] + [free[0]], free[1]);
    SumAppend([] + [free[0]] + [free[1]], free[2]);
  }

  function Idle(q: int): WorkInfo {
    WorkInfo(q, NO_GID, NO_WORK, 0, 0)
  }

  /** Process 0 when it has heard from n processes without work. */
  ghost function Asker(k: Setting, n: nat): Proc
    requires k.nprocs > 0
  {
    Three().(inCallback := true, requested := if SampleCount(k) > 0 then SampleCount(k) else 0,
             samples := seq(n, i => Idle(i + 1)))
  }

  ghost function Heard(k: Setting, n: nat): World
    requires k.nprocs > 0
  {
    World(seq(k.nprocs, q => if q == 0 then Asker(k, n) else Nobody().(inCallback := q <= n)), [], [])
  }

  ghost function Beginning(k: Setting): World {
    World(seq(k.nprocs, q => if q == 0 then Three() else Nobody()), [], [])
  }

  lemma BeginningIsInitial(k: Setting)
    requires ValidSetting(k)
    ensures Initial(k, Beginning(k))
  {
    SumOfThree();
    var w := Beginning(k);
    forall p | 0 <= p < k.nprocs ensures InitialProc(w.procs[p], p) && (p > 0 ==> w.procs[p].gids == []) {
      assert w.procs[p] == if p == 0 then Three() else Nobody();
    }
  }

  lemma StartOfRun(k: Setting) returns (worlds: seq<World>, acts: seq<(nat, Act)>)
    requires ValidSetting(k) && k.nprocs >= 2
    ensures IsBalanceRun(k, worlds, acts) && worlds[|acts|] == Heard(k, 0)
  {
    BeginningIsInitial(k);
    worlds, acts := [Beginning(k)], [];
    var P := Three().(inCallback := true);
    worlds, acts := Extend(k, worlds, acts, 0, BeginCallback);
    assert worlds[|acts|].procs[0] == P;
    worlds, acts := Extend(k, worlds, acts, 0, Request);
    assert worlds[|acts|].procs[0] == Asker(k, 0);
    assert worlds[|acts|].procs == Heard(k, 0).procs;
  }

  lemma {:induction false} MergedLast(samples: seq<WorkInfo>, info: WorkInfo)
    requires forall i :: 0 <= i < |samples| ==> samples[i].procRank != info.procRank
    ensures Merged(samples, info) == samples + [info]
  {
    if samples != [] { MergedLast(samples[1..], info); }
  }

  lemma UpdatedSamples(n: nat)
    ensures IsUpdate(seq(n, i => Idle(i + 1)), Idle(n + 1), seq(n + 1, i => Idle(i + 1)))
  {
    var samples := seq(n, i => Idle(i + 1));
    MergedLast(samples, Idle(n + 1));
    assert seq(n + 1, i => Idle(i + 1)) == samples + [Idle(n + 1)];
  }

  lemma HearOne(k: Setting, n: nat, worlds: seq<World>, acts: seq<(nat, Act)>)
    returns (worlds': seq<World>, acts': seq<(nat, Act)>)
    requires IsBalanceRun(k, worlds, acts) && n + 1 < k.nprocs && worlds[|acts|] == Heard(k, n)
    ensures IsBalanceRun(k, worlds', acts') && worlds'[|acts'|] == Heard(k, n + 1)
  {
    UpdatedSamples(n);
    var q, P, procs := n + 1, Nobody().(inCallback := true), Heard(k, n).procs;
    worlds', acts' := Extend(k, worlds, acts, q, BeginCallback);
    assert worlds'[|acts'|] == World(procs[q := P], [], []);
    worlds', acts' := Extend(k, worlds', acts', q, SendNotice(0));
    assert worlds'[|acts'|] == World(procs[q := P], [], [Notice(0, Idle(q))]) by {
      assert procs[q := P][q := P] == procs[q := P];
      assert [] + [Notice(0, WorkOf(q, P))] == [Notice(0, Idle(q))];
    }
    Hear(k, n, worlds'[|acts'|]);
    worlds', acts' := Extend(k, worlds', acts', 0, ReceiveNotice(0, seq(n + 1, i => Idle(i + 1))));
  }

  lemma Hear(k: Setting, n: nat, w: World)
    requires k.nprocs > n + 1
    requires w == World(Heard(k, n).procs[n + 1 := Nobody().(inCallback := true)], [], [Notice(0, Idle(n + 1))])
    ensures var a := ReceiveNotice(0, seq(n + 1, i => Idle(i + 1)));
            Can(k, w, 0, a) && Next(k, w, 0, a) == Heard(k, n + 1)
  {
    UpdatedSamples(n);
    var v := Next(k, w, 0, ReceiveNotice(0, seq(n + 1, i => Idle(i + 1))));
    assert w.procs[0] == Asker(k, n);
    assert v.procs[0] == Asker(k, n + 1);
    assert v.procs == Heard(k, n + 1).procs;
    assert w.notices[..0] + w.notices[1..] == [];
  }

  lemma {:induction false} HearAll(k: Setting, n: nat) returns (worlds: seq<World>, acts: seq<(nat, Act)>)
    requires ValidSetting(k) && k.nprocs >= 2 && n < k.nprocs
    ensures IsBalanceRun(k, worlds, acts) && worlds[|acts|] == Heard(k, n)
  {
    if n == 0 {
      worlds, acts := StartOfRun(k);
    } else {
      worlds, acts := HearAll(k, n - 1);
      worlds, acts := HearOne(k, n - 1, worlds, acts);
    }
  }

  lemma HeaviestOfThree()
    ensures Heaviest(Three().free, 3) == 2 && SwapOut(Three().free, 2) == Three().free[..2]
    ensures Heaviest(Three().free[..2], 2) == 0 && SwapOut(Three().free[..2], 0) == [FreeBlock(1, 1, 0, 0)]
  {
    var free := Three().free;
    assert Heaviest(free, 1) == 0 && Heaviest(free, 2) == 0;
    assert Heaviest(free[..2], 1) == 0;
  }

  lemma SamplesFit(k: Setting)
    requires ValidSetting(k) && SampleCount(k) >= 1
    ensures k.nprocs >= 2 && SampleCount(k) < k.nprocs
  {
    var n := (k.nprocs - 1) as real;
    assert k.sampleFrac * n <= n;
  }

  lemma {:induction false} RankAboveIdle(work: int, samples: seq<WorkInfo>)
    requires work >= 0 && forall i :: 0 <= i < |samples| ==> samples[i].procWork == 0
    ensures RankAmong(work, samples) == |samples|
  {
    if samples != [] { RankAboveIdle(work, samples[1..]); }
  }

  lemma AimsAtFirst(k: Setting, P: Proc, n: nat)
    requires k.quantile <= 1.0 && n > 0 && P.work >= 0 && P.requested == n && P.samples == seq(n, i => Idle(i + 1))
    ensures TargetOf(k, P) == Some(Idle(1))
  {
    RankAboveIdle(P.work, P.samples);
    assert k.quantile * (n as real) <= n as real;
  }

  /** The executor takes the heaviest block and looks up its lid; the balancer aims at process 1. */
  lemma Aimed(k: Setting) returns (worlds: seq<World>, acts: seq<(nat, Act)>, P: Proc)
    requires ValidSetting(k) && !NeverSends(k)
    ensures IsBalanceRun(k, worlds, acts) && k.nprocs >= 2 && |worlds[|acts|].procs| == k.nprocs
        && worlds[|acts|].procs[0] == P
    ensures P.free == Three().free[..2] && P.work == 6 && P.inCallback && P.hand.Empty? && P.aim == Some((6, Idle(1)))
    ensures P.turn == Some(Turn(2, 0, ReadBlock, 2, [])) && P.gids == [0, 1, 2] && P.lids == Three().lids
        && P.calls == []
  {
    SamplesFit(k);
    var n: nat := SampleCount(k);
    worlds, acts := HearAll(k, n);
    P := Asker(k, n);
    HeaviestOfThree();
    var Q := AfterGrab(P).(turn := Some(Turn(2, 0, FindBlock, 0, [])));
    worlds, acts := FirstActs(k, worlds, acts, ExecutorGrab, P, Q);
    P := AfterStep(k, Q);
    worlds, acts := FirstActs(k, worlds, acts, ExecutorStep, Q, P);
    AimsAtFirst(k, P, n);
    Q := P.(aim := Some((6, Idle(1))));
    worlds, acts := FirstActs(k, worlds, acts, Aim, P, Q);
    P := Q;
  }

  /** The balancer sends the first block while the executor is about to use the last lid. */
  lemma Sent(k: Setting) returns (worlds: seq<World>, acts: seq<(nat, Act)>, P: Proc)
    requires ValidSetting(k) && !NeverSends(k)
    ensures IsBalanceRun(k, worlds, acts) && k.nprocs >= 2 && |worlds[|acts|].procs| == k.nprocs
        && worlds[|acts|].procs[0] == P
    ensures P.turn == Some(Turn(2, 0, ReadBlock, 2, [])) && P.gids == [2, 1] && P.calls == []
  {
    worlds, acts, P := Aimed(k);
    HeaviestOfThree();
    var a := FreeBlock(0, 5, 0, NO_PROC);
    var Q := AfterGrab(P).(hand := Holding(a));
    worlds, acts := FirstActs(k, worlds, acts, BalancerGrab, P, Q);
    assert Passes(Q, a);
    P := Q.(hand := Leaving(a));
    worlds, acts := FirstActs(k, worlds, acts, Decide, Q, P);
    Q := AfterRelease(P, 0).(hand := Empty, aim := None);
    assert Q.gids == [2, 1];
    worlds, acts := FirstActs(k, worlds, acts, SendHeld, P, Q);
    P := Q;
  }

  lemma StepRun(k: Setting, worlds: seq<World>, acts: seq<(nat, Act)>, P: Proc)
    returns (worlds': seq<World>, acts': seq<(nat, Act)>, Q: Proc)
    requires IsBalanceRun(k, worlds, acts) && k.nprocs >= 2 && |worlds[|acts|].procs| == k.nprocs
        && worlds[|acts|].procs[0] == P
    requires P.turn.Some?
    ensures IsBalanceRun(k, worlds', acts') && |worlds'[|acts'|].procs| == k.nprocs
        && worlds'[|acts'|].procs[0] == Q == AfterStep(k, P)
  {
    Q := AfterStep(k, P);
    worlds', acts' := FirstActs(k, worlds, acts, ExecutorStep, P, Q);
  }

  /** Whenever blocks may be sent at all, there is a run in which a command's block is read outside the master's
      arrays: blocks 0, 1, 2 on process 0, the executor with block 2 at lid 2, and block 0 sent away. */
  lemma WrongRun(k: Setting) returns (worlds: seq<World>, acts: seq<(nat, Act)>)
    requires ValidSetting(k) && !NeverSends(k)
    ensures IsBalanceRun(k, worlds, acts) && !AllFaithful(worlds[|acts|])
    ensures |worlds[|acts|].procs| > 0 && |worlds[|acts|].procs[0].calls| == 1
    ensures worlds[|acts|].procs[0].calls[0].gid == 2 && |worlds[|acts|].procs[0].calls[0].hits| > 0
    ensures worlds[|acts|].procs[0].calls[0].hits[0] == WILD
  {
    var P;
    worlds, acts, P := Sent(k);
    worlds, acts, P := StepRun(k, worlds, acts, P);
    assert [] + [WILD] == [WILD];
    assert P.turn == Some(Turn(2, 0, FindProxy, 2, [WILD]));
    worlds, acts, P := StepRun(k, worlds, acts, P);
    worlds, acts, P := StepRun(k, worlds, acts, P);
    worlds, acts, P := StepRun(k, worlds, acts, P);
    worlds, acts, P := StepRun(k, worlds, acts, P);
    assert P.turn.Some? && P.turn.value.stage.CallCommand? && P.turn.value.hits[0] == WILD && P.calls == [];
    worlds, acts, P := StepRun(k, worlds, acts, P);
    assert !Faithful(P.calls[0]);
  }

  /** Nothing is ever sent if less than one process is asked for its work, or more than all have to be lighter. */
  lemma NeverSendsMeans(k: Setting)
    requires ValidSetting(k)
    ensures NeverSends(k) <==> k.sampleFrac * ((k.nprocs - 1) as real) < 1.0 || k.quantile > 1.0
  {
    var x := k.sampleFrac * ((k.nprocs - 1) as real);
    assert SampleCount(k) == x.Floor;
    assert x.Floor < 1 <==> x < 1.0;
  }

  /** Every command always gets the block whose turn it is if and only if nothing is ever sent. */
  lemma FaithfulIff(k: Setting)
    requires ValidSetting(k)
    ensures (forall worlds, acts :: IsBalanceRun(k, worlds, acts) ==> AllFaithful(worlds[|acts|])) <==> NeverSends(k)
    ensures NeverSends(k) <==> k.sampleFrac * ((k.nprocs - 1) as real) < 1.0 || k.quantile > 1.0
  {
    NeverSendsMeans(k);
    if NeverSends(k) {
      forall worlds, acts | IsBalanceRun(k, worlds, acts) ensures AllFaithful(worlds[|acts|]) {
        NothingSentNothingWrong(k, worlds, acts, |acts|);
      }
    } else {
      var worlds, acts := WrongRun(k);
    }
  }
}
