/** Where every block is while dynamic_foreach runs: under any interleaving no block is lost or doubled,
    every block gets at most one turn, on the process it is on, and the total of the work is right. */
module DynamicBalance {
  import opened Counting
  import opened Options
  import opened LoadBalance
  import opened MasterBlocks
  import opened DynamicProtocol

  // ---------- where every block is ----------

  /** How often gid g occurs in a list of free blocks. */
  function CountFree(blocks: seq<FreeBlock>, g: int): nat {
    if blocks == [] then 0 else CountFree(blocks[..|blocks| - 1], g) + One(blocks[|blocks| - 1].gid == g)
  }

  function CountRun(executed: seq<int>, g: int): nat {
    if executed == [] then 0 else CountRun(executed[..|executed| - 1], g) + One(executed[|executed| - 1] == g)
  }

  predicate InHand(hand: Hand, g: int) {
    !hand.Empty? && hand.block.gid == g
  }

  predicate InTurn(turn: Option<Turn>, g: int) {
    turn.Some? && turn.value.gid == g
  }

  /** How often block g is in the care of a process, wherever it is there. */
  function At(P: Proc, g: int): nat {
    CountFree(P.free, g) + One(InHand(P.hand, g)) + One(InTurn(P.turn, g)) + CountRun(P.executed, g)
  }

  function CountMoves(transit: seq<Move>, g: int): nat {
    if transit == [] then 0 else CountMoves(transit[..|transit| - 1], g) + One(transit[|transit| - 1].block.gid == g)
  }

  function SumAt(procs: seq<Proc>, g: int): nat {
    if procs == [] then 0 else SumAt(procs[..|procs| - 1], g) + At(procs[|procs| - 1], g)
  }

  /** All places where block g is. */
  function Places(w: World, g: int): nat {
    SumAt(w.procs, g) + CountMoves(w.transit, g)
  }

  lemma CountFreeAppend(blocks: seq<FreeBlock>, b: FreeBlock, g: int)
    ensures CountFree(blocks + [b], g) == CountFree(blocks, g) + One(b.gid == g)
  {
    assert (blocks + [b])[..|blocks|] == blocks;
  }

  lemma {:induction false} CountFreeUpdated(blocks: seq<FreeBlock>, i: nat, b: FreeBlock, g: int)
    requires i < |blocks|
    ensures CountFree(blocks[i := b], g) + One(blocks[i].gid == g) == CountFree(blocks, g) + One(b.gid == g)
    decreases |blocks|
  {
    var n := |blocks| - 1;
    if i == n {
      assert blocks[i := b][..n] == blocks[..n];
    } else {
      CountFreeUpdated(blocks[..n], i, b, g);
      assert blocks[i := b][..n] == blocks[..n][i := b];
    }
  }

  lemma CountFreeSwapOut(blocks: seq<FreeBlock>, i: nat, g: int)
    requires i < |blocks|
    ensures CountFree(SwapOut(blocks, i), g) + One(blocks[i].gid == g) == CountFree(blocks, g)
  {
    var n := |blocks| - 1;
    CountFreeUpdated(blocks, i, blocks[n], g);
    assert blocks[i := blocks[n]][n] == blocks[n];
  }

  lemma {:induction false} CountMovesRemoved(transit: seq<Move>, i: nat, g: int)
    requires i < |transit|
    ensures CountMoves(transit[..i] + transit[i + 1..], g) + One(transit[i].block.gid == g) == CountMoves(transit, g)
    decreases |transit|
  {
    var n := |transit| - 1;
    var rest := transit[..i] + transit[i + 1..];
    if i == n {
      assert rest == transit[..n];
    } else {
      CountMovesRemoved(transit[..n], i, g);
      assert rest[..n - 1] == transit[..n][..i] + transit[..n][i + 1..];
      assert rest[n - 1] == transit[n];
    }
  }

  lemma {:induction false} SumAtUpdated(procs: seq<Proc>, p: nat, Q: Proc, g: int)
    requires p < |procs|
    ensures SumAt(procs[p := Q], g) + At(procs[p], g) == SumAt(procs, g) + At(Q, g)
    decreases |procs|
  {
    var n := |procs| - 1;
    if p == n {
      assert procs[p := Q][..n] == procs[..n];
    } else {
      SumAtUpdated(procs[..n], p, Q, g);
      assert procs[p := Q][..n] == procs[..n][p := Q];
    }
  }

  lemma {:induction false} SumAtHas(procs: seq<Proc>, p: nat, g: int)
    requires p < |procs|
    ensures SumAt(procs, g) >= At(procs[p], g)
  {
    if p < |procs| - 1 { SumAtHas(procs[..|procs| - 1], p, g); }
  }

  lemma {:induction false} SumAtHasBoth(procs: seq<Proc>, p: nat, q: nat, g: int)
    requires p < q < |procs|
    ensures SumAt(procs, g) >= At(procs[p], g) + At(procs[q], g)
  {
    if q == |procs| - 1 {
      SumAtHas(procs[..q], p, g);
    } else {
      SumAtHasBoth(procs[..|procs| - 1], p, q, g);
    }
  }

  // ---------- every act keeps the places ----------

  /** An act moves blocks between the process and the transit but loses none. */
  ghost predicate Keeps(k: Setting, w: World, p: nat, a: Act, g: int)
    requires p < |w.procs| && k.nprocs > 0
  {
    var P := w.procs[p];
    At(After(k, w, p, P, a), g) + CountMoves(TransitAfter(P, w.transit, a), g) == At(P, g) + CountMoves(w.transit, g)
  }

  lemma KeepsGrab(k: Setting, w: World, p: nat, a: Act, g: int)
    requires k.nprocs > 0 && Can(k, w, p, a) && (a.ExecutorGrab? || a.BalancerGrab?)
    ensures Keeps(k, w, p, a, g)
  {
    var P := w.procs[p];
    CountFreeSwapOut(P.free, Heaviest(P.free, |P.free|), g);
  }

  lemma KeepsStep(k: Setting, w: World, p: nat, g: int)
    requires k.nprocs > 0 && Can(k, w, p, ExecutorStep)
    ensures Keeps(k, w, p, ExecutorStep, g)
  {
    StepSpec(k, w.procs[p]);
    TurnEnds(w.procs[p].executed, w.procs[p].turn.value.gid, g);
  }

  /** A step of the executor leaves all but its turn and its records alone. */
  lemma StepSpec(k: Setting, P: Proc)
    requires P.turn.Some?
    ensures var Q := AfterStep(k, P); Q == P.(turn := Q.turn, executed := Q.executed, calls := Q.calls)
    ensures var Q := AfterStep(k, P);
            if Q.turn.Some? then Q.turn.value.gid == P.turn.value.gid && Q.executed == P.executed
            else Q.executed == P.executed + [P.turn.value.gid]
  {
  }

  lemma TurnEnds(executed: seq<int>, x: int, g: int)
    ensures CountRun(executed + [x], g) == CountRun(executed, g) + One(x == g)
  {
    assert (executed + [x])[..|executed|] == executed;
  }

  lemma KeepsDecide(k: Setting, w: World, p: nat, g: int)
    requires k.nprocs > 0 && Can(k, w, p, Decide)
    ensures Keeps(k, w, p, Decide, g)
  {
    CountFreeAppend(w.procs[p].free, w.procs[p].hand.block, g);
  }

  lemma ReleaseKeeps(P: Proc, gid: int, g: int)
    ensures At(AfterRelease(P, gid), g) == At(P, g)
  {
  }

  lemma KeepsSend(k: Setting, w: World, p: nat, g: int)
    requires k.nprocs > 0 && Can(k, w, p, SendHeld)
    ensures Keeps(k, w, p, SendHeld, g)
  {
    var P := w.procs[p];
    var m := Move(P.aim.value.1.procRank, P.hand.block);
    ReleaseKeeps(P, P.hand.block.gid, g);
    assert (w.transit + [m])[..|w.transit|] == w.transit;
  }

  lemma KeepsReceive(k: Setting, w: World, p: nat, i: nat, src: int, g: int)
    requires k.nprocs > 0 && Can(k, w, p, ReceiveBlock(i, src))
    ensures Keeps(k, w, p, ReceiveBlock(i, src), g)
  {
    CountMovesRemoved(w.transit, i, g);
    CountFreeAppend(w.procs[p].free, w.transit[i].block.(srcProc := src), g);
  }

  lemma ActKeeps(k: Setting, w: World, p: nat, a: Act, g: int)
    requires k.nprocs > 0 && Can(k, w, p, a)
    ensures Keeps(k, w, p, a, g)
  {
    match a
    case ExecutorGrab => KeepsGrab(k, w, p, a, g);
    case BalancerGrab => KeepsGrab(k, w, p, a, g);
    case ExecutorStep => KeepsStep(k, w, p, g);
    case Decide => KeepsDecide(k, w, p, g);
    case SendHeld => KeepsSend(k, w, p, g);
    case ReceiveBlock(i, src) => KeepsReceive(k, w, p, i, src, g);
    case _ =>
  }

  lemma PlacesKept(k: Setting, w: World, p: nat, a: Act, g: int)
    requires k.nprocs > 0 && Can(k, w, p, a)
    ensures Places(Next(k, w, p, a), g) == Places(w, g)
  {
    ActKeeps(k, w, p, a, g);
    SumAtUpdated(w.procs, p, After(k, w, p, w.procs[p], a), g);
  }

  // ---------- what one process keeps ----------

  ghost predicate GoodBlock(b: FreeBlock) {
    b.gid >= 0 && 0 <= b.work < WRAP
  }

  /** The total is right, a done process between callbacks has nothing free, and the master's maps are inverse. */
  ghost predicate ProcInv(P: Proc) {
    && Proper(P.free) && P.work == SumWork(P.free) % WRAP && Inverse(P.gids, P.lids)
    && (!P.hand.Empty? ==> P.inCallback && GoodBlock(P.hand.block))
    && (P.done && !P.inCallback ==> P.free == [])
  }

  /** The blocks in the care of a process are the ones in its master. */
  ghost predicate Home(P: Proc, g: int) {
    At(P, g) > 0 <==> g in P.lids
  }

  ghost predicate TransitInv(transit: seq<Move>) {
    forall i :: 0 <= i < |transit| ==> GoodBlock(transit[i].block)
  }

  lemma GrabKeepsWork(P: Proc)
    requires Proper(P.free) && P.work == SumWork(P.free) % WRAP && P.free != []
    ensures Proper(AfterGrab(P).free) && AfterGrab(P).work == SumWork(AfterGrab(P).free) % WRAP
  {
    var i := Heaviest(P.free, |P.free|);
    SwapOutSpec(P.free, i);
    Less32(SumWork(P.free), P.free[i].work, SumWork(SwapOut(P.free, i)));
  }

  lemma AddKeepsWork(P: Proc, b: FreeBlock)
    requires Proper(P.free) && P.work == SumWork(P.free) % WRAP && GoodBlock(b)
    ensures Proper(AfterAdd(P, b).free) && AfterAdd(P, b).work == SumWork(AfterAdd(P, b).free) % WRAP
  {
    SumAppend(P.free, b);
    More32(SumWork(P.free), b.work, SumWork(P.free + [b]));
  }

  lemma ReleaseKeepsMaps(P: Proc, gid: int)
    requires Inverse(P.gids, P.lids)
    ensures Inverse(AfterRelease(P, gid).gids, AfterRelease(P, gid).lids)
    ensures forall g :: g in AfterRelease(P, gid).lids <==> g in P.lids && g != gid
  {
    if gid in P.lids {
      assert 0 <= P.lids[gid] < |P.gids|;
      InverseSwapOut(P.gids, P.lids, gid);
      assert P.gids[|P.gids| - 1] in P.lids;
    }
  }

  lemma SendKeepsProc(k: Setting, w: World, p: nat)
    requires k.nprocs > 0 && Can(k, w, p, SendHeld) && ProcInv(w.procs[p])
    ensures ProcInv(After(k, w, p, w.procs[p], SendHeld))
  {
    ReleaseKeepsMaps(w.procs[p], w.procs[p].hand.block.gid);
  }

  lemma ReceiveKeepsProc(k: Setting, w: World, p: nat, i: nat, src: int)
    requires k.nprocs > 0 && Can(k, w, p, ReceiveBlock(i, src)) && ProcInv(w.procs[p]) && TransitInv(w.transit)
    requires w.transit[i].block.gid !in w.procs[p].lids
    ensures ProcInv(After(k, w, p, w.procs[p], ReceiveBlock(i, src)))
  {
    var P := w.procs[p];
    AddKeepsWork(P, w.transit[i].block.(srcProc := src));
    InverseAppend(P.gids, P.lids, w.transit[i].block.gid);
  }

  lemma ProcInvStep(k: Setting, w: World, p: nat, a: Act)
    requires k.nprocs > 0 && Can(k, w, p, a) && ProcInv(w.procs[p]) && TransitInv(w.transit)
    requires a.ReceiveBlock? ==> w.transit[a.i].block.gid !in w.procs[p].lids
    ensures ProcInv(After(k, w, p, w.procs[p], a))
  {
    var P := w.procs[p];
    match a
    case ExecutorGrab => GrabKeepsWork(P);
    case BalancerGrab => GrabKeepsWork(P);
    case Decide => AddKeepsWork(P, P.hand.block);
    case SendHeld => SendKeepsProc(k, w, p);
    case ReceiveBlock(i, src) => ReceiveKeepsProc(k, w, p, i, src);
    case _ =>
  }

  /** A block that is given away is nowhere else in the process. */
  lemma SendKeepsHome(k: Setting, w: World, p: nat, g: int)
    requires k.nprocs > 0 && Can(k, w, p, SendHeld) && ProcInv(w.procs[p]) && Home(w.procs[p], g)
        && At(w.procs[p], g) <= 1
    ensures Home(After(k, w, p, w.procs[p], SendHeld), g)
  {
    var P := w.procs[p];
    ReleaseKeepsMaps(P, P.hand.block.gid);
    ReleaseKeeps(P, P.hand.block.gid, g);
  }

  lemma HomeStep(k: Setting, w: World, p: nat, a: Act, g: int)
    requires k.nprocs > 0 && Can(k, w, p, a) && ProcInv(w.procs[p]) && Home(w.procs[p], g) && At(w.procs[p], g) <= 1
    ensures Home(After(k, w, p, w.procs[p], a), g)
  {
    ActKeeps(k, w, p, a, g);
    match a
    case SendHeld => SendKeepsHome(k, w, p, g);
    case ReceiveBlock(i, _) => CountMovesRemoved(w.transit, i, g);
    case _ =>
  }

  lemma {:induction false} InTransitCounts(transit: seq<Move>, i: nat)
    requires i < |transit|
    ensures CountMoves(transit, transit[i].block.gid) > 0
  {
    if i < |transit| - 1 { InTransitCounts(transit[..|transit| - 1], i); }
  }

  // ---------- every run ----------

  ghost predicate Inv(k: Setting, w: World, initial: World) {
    && |w.procs| == |initial.procs| == k.nprocs && k.nprocs > 0 && TransitInv(w.transit)
    && (forall p :: 0 <= p < |w.procs| ==> ProcInv(w.procs[p]))
    && (forall p, g :: 0 <= p < |w.procs| ==> Home(w.procs[p], g))
    && (forall g :: Places(w, g) == Places(initial, g) <= 1)
  }

  lemma {:induction false} CountListed(blocks: seq<FreeBlock>, gids: seq<int>, lids: map<int, int>, g: int)
    requires |blocks| <= |gids| && Inverse(gids, lids) && forall i :: 0 <= i < |blocks| ==> blocks[i].gid == gids[i]
    ensures CountFree(blocks, g) == One(g in lids && lids[g] < |blocks|)
  {
    if blocks != [] {
      CountListed(blocks[..|blocks| - 1], gids, lids, g);
    }
  }

  lemma InitialAt(k: Setting, w: World, p: nat, g: int)
    requires Initial(k, w) && p < |w.procs|
    ensures At(w.procs[p], g) == One(g in w.procs[p].lids)
  {
    var P := w.procs[p];
    assert InitialProc(P, p);
    CountListed(P.free, P.gids, P.lids, g);
  }

  lemma {:induction false} SumApart(procs: seq<Proc>, g: int)
    requires forall p :: 0 <= p < |procs| ==> At(procs[p], g) <= 1
    requires forall p, q :: 0 <= p < q < |procs| ==> At(procs[p], g) == 0 || At(procs[q], g) == 0
    ensures SumAt(procs, g) <= 1
    ensures (forall p :: 0 <= p < |procs| ==> At(procs[p], g) == 0) ==> SumAt(procs, g) == 0
  {
    if procs != [] { SumApart(procs[..|procs| - 1], g); }
  }

  lemma Apart(k: Setting, w: World, p: nat, q: nat, g: int)
    requires Initial(k, w) && p < q < |w.procs| && g in w.procs[p].lids
    ensures g !in w.procs[q].lids
  {
    assert InitialProc(w.procs[p], p) && InitialProc(w.procs[q], q);
    Listed(w.procs[p].gids, w.procs[p].lids, g);
    Listed(w.procs[q].gids, w.procs[q].lids, g);
  }

  lemma Listed(gids: seq<int>, lids: map<int, int>, g: int)
    requires Inverse(gids, lids)
    ensures g in lids ==> 0 <= lids[g] < |gids| && gids[lids[g]] == g
  {
  }

  lemma InvInit(k: Setting, w: World)
    requires ValidSetting(k) && Initial(k, w)
    ensures Inv(k, w, w)
  {
    forall p, g | 0 <= p < |w.procs| ensures Home(w.procs[p], g) {
      InitialAt(k, w, p, g);
    }
    forall p | 0 <= p < |w.procs| ensures ProcInv(w.procs[p]) {
      assert InitialProc(w.procs[p], p);
    }
    forall g ensures Places(w, g) <= 1 {
      forall p | 0 <= p < |w.procs| ensures At(w.procs[p], g) == One(g in w.procs[p].lids) {
        InitialAt(k, w, p, g);
      }
      forall p, q | 0 <= p < q < |w.procs| ensures At(w.procs[p], g) == 0 || At(w.procs[q], g) == 0 {
        if g in w.procs[p].lids { Apart(k, w, p, q, g); }
      }
      SumApart(w.procs, g);
    }
  }

  lemma NewAtReceiver(k: Setting, w: World, initial: World, p: nat, i: nat, src: int)
    requires Inv(k, w, initial) && Can(k, w, p, ReceiveBlock(i, src))
    ensures w.transit[i].block.gid !in w.procs[p].lids
  {
    var g := w.transit[i].block.gid;
    InTransitCounts(w.transit, i);
    SumAtHas(w.procs, p, g);
    assert Places(w, g) == Places(initial, g) <= 1;
    assert Home(w.procs[p], g);
  }

  lemma InvStep(k: Setting, w: World, initial: World, p: nat, a: Act)
    requires Inv(k, w, initial) && Can(k, w, p, a)
    ensures Inv(k, Next(k, w, p, a), initial)
  {
    var v := Next(k, w, p, a);
    assert ProcInv(w.procs[p]);
    if a.ReceiveBlock? { NewAtReceiver(k, w, initial, p, a.i, a.src); }
    ProcInvStep(k, w, p, a);
    forall q, g | 0 <= q < |v.procs| ensures Home(v.procs[q], g) {
      assert Home(w.procs[q], g) && Places(w, g) == Places(initial, g) <= 1;
      if q == p {
        SumAtHas(w.procs, p, g);
        HomeStep(k, w, p, a, g);
      }
    }
    forall g ensures Places(v, g) == Places(initial, g) <= 1 {
      assert Places(w, g) == Places(initial, g) <= 1;
      PlacesKept(k, w, p, a, g);
    }
    TransitInvStep(w, p, a);
  }

  lemma TransitInvStep(w: World, p: nat, a: Act)
    requires p < |w.procs| && TransitInv(w.transit) && ProcInv(w.procs[p])
    ensures TransitInv(TransitAfter(w.procs[p], w.transit, a))
  {
  }

  lemma {:induction false} RunInv(k: Setting, worlds: seq<World>, acts: seq<(nat, Act)>, i: nat)
    requires IsBalanceRun(k, worlds, acts) && i < |worlds|
    ensures Inv(k, worlds[i], worlds[0])
  {
    if i == 0 {
      InvInit(k, worlds[0]);
    } else {
      RunInv(k, worlds, acts, i - 1);
      assert StepsBy(k, worlds[i - 1], acts[i - 1], worlds[i]);
      InvStep(k, worlds[i - 1], worlds[0], acts[i - 1].0, acts[i - 1].1);
    }
  }

  /** A process changes by its own acts only. */
  lemma RunStep(k: Setting, worlds: seq<World>, acts: seq<(nat, Act)>, i: nat, p: nat) returns (own: bool)
    requires IsBalanceRun(k, worlds, acts) && 0 < i < |worlds| && p < |worlds[i].procs|
    ensures p < |worlds[i - 1].procs| && Inv(k, worlds[i - 1], worlds[0])
    ensures own ==> Can(k, worlds[i - 1], p, acts[i - 1].1)
    ensures own ==> worlds[i].procs[p] == After(k, worlds[i - 1], p, worlds[i - 1].procs[p], acts[i - 1].1)
    ensures !own ==> worlds[i].procs[p] == worlds[i - 1].procs[p]
  {
    RunInv(k, worlds, acts, i - 1);
    RunInv(k, worlds, acts, i);
    assert StepsBy(k, worlds[i - 1], acts[i - 1], worlds[i]);
    own := acts[i - 1].0 == p;
  }

  /** Under any interleaving no block is lost or doubled, and none gets a second turn, nor turns on two
      processes; the process of the turn is the one whose master holds the block. */
  lemma NeverTwice(k: Setting, worlds: seq<World>, acts: seq<(nat, Act)>, i: nat, g: int)
    requires IsBalanceRun(k, worlds, acts) && i < |worlds|
    ensures Places(worlds[i], g) == Places(worlds[0], g) <= 1
    ensures forall p :: 0 <= p < |worlds[i].procs| ==> CountRun(worlds[i].procs[p].executed, g) <= 1
    ensures forall p, q :: 0 <= p < q < |worlds[i].procs| ==>
              CountRun(worlds[i].procs[p].executed, g) == 0 || CountRun(worlds[i].procs[q].executed, g) == 0
    ensures forall p :: 0 <= p < |worlds[i].procs| && CountRun(worlds[i].procs[p].executed, g) > 0 ==>
              g in worlds[i].procs[p].lids
  {
    RunInv(k, worlds, acts, i);
    var w := worlds[i];
    assert Places(w, g) == Places(worlds[0], g) <= 1;
    forall p | 0 <= p < |w.procs|
      ensures At(w.procs[p], g) <= 1 && (At(w.procs[p], g) > 0 ==> g in w.procs[p].lids)
    {
      SumAtHas(w.procs, p, g);
      assert Home(w.procs[p], g);
    }
    forall p, q | 0 <= p < q < |w.procs| ensures At(w.procs[p], g) + At(w.procs[q], g) <= 1 {
      SumAtHasBoth(w.procs, p, q, g);
    }
  }

  /** `proc_work` is the summed work of the free blocks at every moment. */
  lemma WorkIsSum(k: Setting, worlds: seq<World>, acts: seq<(nat, Act)>, i: nat, p: nat)
    requires IsBalanceRun(k, worlds, acts) && i < |worlds| && p < |worlds[i].procs|
    ensures worlds[i].procs[p].work == SumWork(worlds[i].procs[p].free) % WRAP
  {
    RunInv(k, worlds, acts, i);
    assert ProcInv(worlds[i].procs[p]);
  }

  /** No block is under way and every process is between callbacks, the last of which reported done. */
  ghost predicate Stopped(w: World) {
    w.transit == [] && forall p :: 0 <= p < |w.procs| ==> !w.procs[p].inCallback && w.procs[p].done
  }

  ghost predicate ExecutorsIdle(w: World) {
    forall q :: 0 <= q < |w.procs| ==> w.procs[q].turn.None?
  }

  lemma {:induction false} AllRunSomewhere(procs: seq<Proc>, g: int) returns (p: nat)
    requires SumAt(procs, g) > 0
    requires forall q :: 0 <= q < |procs| ==> procs[q].free == [] && procs[q].hand.Empty? && procs[q].turn.None?
    ensures p < |procs| && CountRun(procs[p].executed, g) > 0
  {
    var n := |procs| - 1;
    if At(procs[n], g) > 0 {
      p := n;
    } else {
      p := AllRunSomewhere(procs[..n], g);
    }
  }

  /** When load balancing has stopped and the executors have finished what they hold, every block that was
      there at the start has had exactly one turn, on exactly one process. */
  lemma EveryTurnOnce(k: Setting, worlds: seq<World>, acts: seq<(nat, Act)>, i: nat, g: int) returns (p: nat)
    requires IsBalanceRun(k, worlds, acts) && i < |worlds| && Stopped(worlds[i]) && ExecutorsIdle(worlds[i])
    requires Places(worlds[0], g) == 1
    ensures p < |worlds[i].procs| && CountRun(worlds[i].procs[p].executed, g) == 1 && g in worlds[i].procs[p].lids
    ensures forall q :: 0 <= q < |worlds[i].procs| && q != p ==> CountRun(worlds[i].procs[q].executed, g) == 0
  {
    RunInv(k, worlds, acts, i);
    NeverTwice(k, worlds, acts, i, g);
    var w := worlds[i];
    forall q | 0 <= q < |w.procs| ensures w.procs[q].free == [] && w.procs[q].hand.Empty? && w.procs[q].turn.None? {
      assert ProcInv(w.procs[q]);
    }
    p := AllRunSomewhere(w.procs, g);
  }
}
