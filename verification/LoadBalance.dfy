/** The list of free blocks one process may execute or give away, and the choice of where to send one. */
module LoadBalance {
  import opened Arith
  import opened Options
  import opened Counting

  const NO_GID := -1
  const NO_WORK := 0
  const NO_PROC := -1

  /** Work is a 32-bit unsigned integer. */
  const WRAP := 0x1_0000_0000

  datatype FreeBlock = FreeBlock(gid: int, work: int, srcProc: int, originProc: int)

  datatype WorkInfo = WorkInfo(procRank: int, topGid: int, topWork: int, procWork: int, nlids: nat)

  function SumWork(blocks: seq<FreeBlock>): int {
    if blocks == [] then 0 else SumWork(blocks[..|blocks| - 1]) + blocks[|blocks| - 1].work
  }

  ghost predicate Proper(blocks: seq<FreeBlock>) {
    forall i :: 0 <= i < |blocks| ==> blocks[i].gid >= 0 && 0 <= blocks[i].work < WRAP
  }

  /** The first of the heaviest among the first n blocks. */
  function Heaviest(blocks: seq<FreeBlock>, n: nat): (i: nat)
    requires 0 < n <= |blocks|
    ensures i < n
  {
    if n == 1 then 0 else
    var i := Heaviest(blocks, n - 1);
    if blocks[n - 1].work > blocks[i].work then n - 1 else i
  }

  lemma {:induction false} HeaviestIsMax(blocks: seq<FreeBlock>, n: nat)
    requires 0 < n <= |blocks|
    ensures forall j :: 0 <= j < n ==> blocks[j].work <= blocks[Heaviest(blocks, n)].work
    ensures forall j :: 0 <= j < Heaviest(blocks, n) ==> blocks[j].work < blocks[Heaviest(blocks, n)].work
  {
    if n > 1 { HeaviestIsMax(blocks, n - 1); }
  }

  lemma {:induction false} SumUpdated(blocks: seq<FreeBlock>, i: nat, b: FreeBlock)
    requires i < |blocks|
    ensures SumWork(blocks[i := b]) == SumWork(blocks) - blocks[i].work + b.work
    decreases |blocks|
  {
    var n := |blocks| - 1;
    if i == n {
      assert blocks[i := b][..n] == blocks[..n];
    } else {
      SumUpdated(blocks[..n], i, b);
      assert blocks[i := b][..n] == blocks[..n][i := b];
    }
  }

  lemma SwapOutSum(blocks: seq<FreeBlock>, i: nat)
    requires i < |blocks|
    ensures SumWork(SwapOut(blocks, i)) == SumWork(blocks) - blocks[i].work
  {
    var n := |blocks| - 1;
    SumUpdated(blocks, i, blocks[n]);
    assert blocks[i := blocks[n]][n] == blocks[n];
  }

  /** Only block i is gone: its work from the total, its entry from the list. */
  lemma SwapOutSpec(blocks: seq<FreeBlock>, i: nat)
    requires i < |blocks|
    ensures SumWork(SwapOut(blocks, i)) == SumWork(blocks) - blocks[i].work
    ensures multiset(SwapOut(blocks, i)) + multiset{blocks[i]} == multiset(blocks)
    ensures Proper(blocks) ==> Proper(SwapOut(blocks, i))
  {
    SwapOutSum(blocks, i);
    SwapOutCounts(blocks, i);
  }

  lemma SumAppend(blocks: seq<FreeBlock>, b: FreeBlock)
    ensures SumWork(blocks + [b]) == SumWork(blocks) + b.work
  {
    assert (blocks + [b])[..|blocks|] == blocks;
  }

  lemma ModSubtract(a: int, b: int, m: int)
    requires m > 0
    ensures ((a % m) - b) % m == (a - b) % m
  {
    DivUniqueMod(a % m - b, a - b, a / m, m);
  }

  lemma ModAdd(a: int, b: int, m: int)
    requires m > 0
    ensures ((a % m) + b) % m == (a + b) % m
  {
    DivUniqueMod(a % m + b, a + b, a / m, m);
  }

  lemma Less32(total: int, work: int, rest: int)
    requires rest == total - work
    ensures (total % WRAP - work) % WRAP == rest % WRAP
  {
    ModSubtract(total, work, WRAP);
  }

  lemma More32(total: int, work: int, sum: int)
    requires sum == total + work
    ensures (total % WRAP + work) % WRAP == sum % WRAP
  {
    ModAdd(total, work, WRAP);
  }

  lemma DivUniqueMod(x: int, y: int, k: int, m: int)
    requires m > 0 && y == x + k * m
    ensures x % m == y % m
  {
    MulDistr(x / m, k, m);
    DivUnique(y, m, x / m + k, x % m);
  }

  // ---------- what is known about other processes ----------

  ghost predicate SortedByWork(samples: seq<WorkInfo>) {
    forall i, j :: 0 <= i < j < |samples| ==> samples[i].procWork <= samples[j].procWork
  }

  /** The sample with this process's entry replaced, or the new entry appended. */
  function Merged(samples: seq<WorkInfo>, info: WorkInfo): seq<WorkInfo> {
    if samples == [] then [info]
    else if samples[0].procRank == info.procRank then [info] + samples[1..]
    else [samples[0]] + Merged(samples[1..], info)
  }

  /** At most one entry for each process. */
  ghost predicate OneEach(samples: seq<WorkInfo>) {
    forall i, j :: 0 <= i < j < |samples| ==> samples[i].procRank != samples[j].procRank
  }

  predicate Knows(samples: seq<WorkInfo>, rank: int) {
    exists i :: 0 <= i < |samples| && samples[i].procRank == rank
  }

  /** Afterwards the process has just the new entry, and the others have theirs as before. */
  lemma {:induction false} MergedSpec(samples: seq<WorkInfo>, info: WorkInfo)
    requires OneEach(samples)
    ensures var merged := Merged(samples, info);
            && OneEach(merged) && |merged| == |samples| + One(!Knows(samples, info.procRank))
            && forall x :: x in merged <==> x == info || (x in samples && x.procRank != info.procRank)
  {
    if samples != [] {
      var rest := samples[1..];
      assert samples == [samples[0]] + rest;
      if samples[0].procRank == info.procRank {
        assert forall x :: x in rest ==> x.procRank != info.procRank;
      } else {
        MergedSpec(rest, info);
        KnowsRest(samples, info.procRank);
        var merged := Merged(rest, info);
        forall j | 0 <= j < |merged| ensures merged[j].procRank != samples[0].procRank {
          assert merged[j] in merged;
        }
      }
    }
  }

  lemma KnowsRest(samples: seq<WorkInfo>, rank: int)
    requires samples != [] && samples[0].procRank != rank
    ensures Knows(samples, rank) <==> Knows(samples[1..], rank)
  {
    if Knows(samples, rank) {
      var i :| 0 <= i < |samples| && samples[i].procRank == rank;
      assert samples[1..][i - 1] == samples[i];
    }
  }

  /** Sorting settles nothing about entries with the same work. */
  ghost predicate IsUpdate(samples: seq<WorkInfo>, info: WorkInfo, updated: seq<WorkInfo>) {
    SortedByWork(updated) && multiset(updated) == multiset(Merged(samples, info))
  }

  // ---------- choosing a destination ----------

  /** Where this process ranks among the samples, which are sorted by work. */
  function RankAmong(procWork: int, samples: seq<WorkInfo>): (i: nat)
    ensures i <= |samples|
  {
    if samples == [] || procWork < samples[0].procWork then 0 else 1 + RankAmong(procWork, samples[1..])
  }

  /** The index looked up in the samples, if this process gives work away at all. */
  function TargetIndex(procWork: int, samples: seq<WorkInfo>, quantile: real): Option<int> {
    if samples == [] then None else
    var rank := RankAmong(procWork, samples);
    if (rank as real) < quantile * (|samples| as real) then None else Some(|samples| - rank)
  }

  method ChooseTarget(procWork: int, samples: seq<WorkInfo>, quantile: real) returns (target: Option<int>)
    ensures target == TargetIndex(procWork, samples, quantile)
  {
    if |samples| == 0 {
      return None;
    }
    var myWorkIdx := |samples|;
    var i := 0;
    while i < |samples|
      invariant 0 <= i <= |samples| && myWorkIdx == |samples|
      invariant RankAmong(procWork, samples) == i + RankAmong(procWork, samples[i..])
    {
      if procWork < samples[i].procWork {
        myWorkIdx := i;
        break;
      }
      i := i + 1;
    }
    if (myWorkIdx as real) < quantile * (|samples| as real) {
      return None;
    }
    return Some(|samples| - myWorkIdx);
  }

  /** How many of the samples are no heavier. */
  function NoHeavier(procWork: int, samples: seq<WorkInfo>): (n: nat)
    ensures n <= |samples|
  {
    if samples == [] then 0
    else NoHeavier(procWork, samples[..|samples| - 1]) + One(samples[|samples| - 1].procWork <= procWork)
  }

  lemma {:induction false} NoHeavierFirst(procWork: int, samples: seq<WorkInfo>)
    requires samples != []
    ensures NoHeavier(procWork, samples) == One(samples[0].procWork <= procWork) + NoHeavier(procWork, samples[1..])
  {
    var n := |samples| - 1;
    if n == 0 {
      assert samples[..0] == [] && samples[1..] == [];
    } else {
      NoHeavierFirst(procWork, samples[..n]);
      assert samples[..n][1..] == samples[1..][..n - 1];
    }
  }

  lemma {:induction false} AllHeavier(procWork: int, samples: seq<WorkInfo>)
    requires forall i :: 0 <= i < |samples| ==> samples[i].procWork > procWork
    ensures NoHeavier(procWork, samples) == 0
  {
    if samples != [] { AllHeavier(procWork, samples[..|samples| - 1]); }
  }

  lemma {:induction false} RankCounts(procWork: int, samples: seq<WorkInfo>)
    requires SortedByWork(samples)
    ensures RankAmong(procWork, samples) == NoHeavier(procWork, samples)
  {
    if samples != [] {
      NoHeavierFirst(procWork, samples);
      if procWork < samples[0].procWork {
        AllHeavier(procWork, samples[1..]);
      } else {
        RankCounts(procWork, samples[1..]);
      }
    }
  }

  /** A process gives work away exactly if enough of the samples are no heavier than it, and its destination is as
      far from the upper end of the samples as there are such samples. */
  lemma MirrorImage(procWork: int, samples: seq<WorkInfo>, quantile: real)
    requires SortedByWork(samples)
    ensures var t, n := TargetIndex(procWork, samples, quantile), NoHeavier(procWork, samples);
            && (t.Some? <==> samples != [] && n as real >= quantile * (|samples| as real))
            && (t.Some? ==> n + t.value == |samples|)
  {
    RankCounts(procWork, samples);
  }

  /** For every quantile above zero the index is a valid one; otherwise it is valid exactly when this
      process is no lighter than the lightest sample. */
  lemma TargetInRange(procWork: int, samples: seq<WorkInfo>, quantile: real)
    requires samples != []
    ensures var t := TargetIndex(procWork, samples, quantile);
            (t.Some? ==> 0 <= t.value < |samples|) <==> quantile > 0.0 || procWork >= samples[0].procWork
  {
    var n := |samples| as real;
    assert n > 0.0;
    if quantile > 0.0 {
      assert quantile * n > 0.0;
    } else {
      assert quantile * n <= 0.0;
    }
  }

  /** Quantile zero, on the lightest of two processes: the index is the number of samples. */
  lemma TargetPastEnd(samples: seq<WorkInfo>)
    requires samples == [WorkInfo(1, 5, 7, 7, 2)]
    ensures TargetIndex(3, samples, 0.0) == Some(|samples|)
  {
    assert RankAmong(3, samples) == 0;
  }

  // ---------- whether a move improves the balance ----------

  ghost predicate In32(samples: seq<WorkInfo>) {
    forall i :: 0 <= i < |samples| ==> 0 <= samples[i].procWork < WRAP
  }

  /** The test for a block of so much work, with the subtraction of 32-bit unsigned integers. */
  predicate Outweighs(procWork: int, targetWork: int, work: int) {
    (procWork - targetWork) % WRAP > work
  }

  /** Even with the block, the destination stays lighter than the sender was. */
  predicate Improves(procWork: int, targetWork: int, work: int) {
    targetWork + work < procWork
  }

  lemma {:induction false} BelowRank(procWork: int, samples: seq<WorkInfo>, i: nat)
    requires i < RankAmong(procWork, samples)
    ensures i < |samples| && samples[i].procWork <= procWork
  {
    if i > 0 { BelowRank(procWork, samples[1..], i - 1); }
  }

  /** With a quantile above one half the destination is no heavier than the sender, and the test is what it is
      meant to be. */
  lemma SentToLighter(procWork: int, samples: seq<WorkInfo>, quantile: real, work: int)
    requires 0 <= procWork < WRAP && In32(samples) && quantile > 0.5 && TargetIndex(procWork, samples, quantile).Some?
    ensures var t := TargetIndex(procWork, samples, quantile).value;
            && 0 <= t < |samples| && samples[t].procWork <= procWork
            && (Outweighs(procWork, samples[t].procWork, work) <==> Improves(procWork, samples[t].procWork, work))
  {
    var n, rank := |samples|, RankAmong(procWork, samples);
    assert quantile * (n as real) > 0.5 * (n as real);
    assert n as real < 2.0 * (rank as real);
    BelowRank(procWork, samples, n - rank);
  }

  /** Every block that passes the test improves the balance, for the loads the sender knows of. */
  ghost predicate AlwaysImproves(quantile: real) {
    forall procWork, samples, work :: ImprovesAt(procWork, samples, quantile, work)
  }

  ghost predicate ImprovesAt(procWork: int, samples: seq<WorkInfo>, quantile: real, work: int) {
    var t := TargetIndex(procWork, samples, quantile);
    && 0 <= procWork < WRAP && SortedByWork(samples) && In32(samples) && t.Some? && 0 <= t.value < |samples|
    && Outweighs(procWork, samples[t.value].procWork, work)
    ==>
      Improves(procWork, samples[t.value].procWork, work)
  }

  /** Own work 3, samples of work 1 and 5, quantile one half: the destination is the one with 5, and as 3 - 5 wraps
      around a block of work 1 passes. */
  lemma SentToHeavier(samples: seq<WorkInfo>, quantile: real)
    requires samples == [WorkInfo(1, 7, 1, 1, 1), WorkInfo(2, 8, 5, 5, 1)] && quantile <= 0.5
    ensures TargetIndex(3, samples, quantile) == Some(1)
    ensures Outweighs(3, samples[1].procWork, 1) && !Improves(3, samples[1].procWork, 1)
  {
    assert samples[1..] == [samples[1]];
    assert RankAmong(3, [samples[1]]) == 0;
    assert quantile * 2.0 <= 1.0;
  }

  lemma ImprovesIff(quantile: real)
    ensures AlwaysImproves(quantile) <==> quantile > 0.5
  {
    if quantile > 0.5 {
      forall procWork, samples, work ensures ImprovesAt(procWork, samples, quantile, work) {
        if 0 <= procWork < WRAP && In32(samples) && TargetIndex(procWork, samples, quantile).Some? {
          SentToLighter(procWork, samples, quantile, work);
        }
      }
    } else {
      var samples := [WorkInfo(1, 7, 1, 1, 1), WorkInfo(2, 8, 5, 5, 1)];
      SentToHeavier(samples, quantile);
      assert !ImprovesAt(3, samples, quantile, 1);
    }
  }

  lemma PutInOrder(sorted: seq<WorkInfo>, at: nat, x: WorkInfo)
    requires SortedByWork(sorted) && at <= |sorted|
    requires at > 0 ==> sorted[at - 1].procWork <= x.procWork
    requires at < |sorted| ==> x.procWork <= sorted[at].procWork
    ensures SortedByWork(sorted[..at] + [x] + sorted[at..])
  {
    var longer := sorted[..at] + [x] + sorted[at..];
    forall i, j | 0 <= i < j < |longer| ensures longer[i].procWork <= longer[j].procWork {
      if j == at {
        assert longer[i] == sorted[i];
      } else if i == at {
        assert longer[j] == sorted[j - 1];
      } else {
        assert longer[i] == sorted[if i < at then i else i - 1] && longer[j] == sorted[if j < at then j else j - 1];
      }
    }
  }

  lemma PutInCounts(sorted: seq<WorkInfo>, at: nat, x: WorkInfo)
    requires at <= |sorted|
    ensures multiset(sorted[..at] + [x] + sorted[at..]) == multiset(sorted) + multiset{x}
  {
    assert sorted == sorted[..at] + sorted[at..];
  }

  method SortByWork(samples: seq<WorkInfo>) returns (sorted: seq<WorkInfo>)
    ensures SortedByWork(sorted) && multiset(sorted) == multiset(samples)
  {
    sorted := [];
    for i := 0 to |samples|
      invariant SortedByWork(sorted) && multiset(sorted) == multiset(samples[..i])
    {
      var at := |sorted|;
      while at > 0 && samples[i].procWork < sorted[at - 1].procWork
        invariant 0 <= at <= |sorted| && (at < |sorted| ==> samples[i].procWork < sorted[at].procWork)
      {
        at := at - 1;
      }
      assert samples[..i + 1] == samples[..i] + [samples[i]];
      PutInOrder(sorted, at, samples[i]);
      PutInCounts(sorted, at, samples[i]);
      sorted := sorted[..at] + [samples[i]] + sorted[at..];
    }
    assert samples[..|samples|] == samples;
  }

  // ---------- the object ----------

  class AuxBlock {
    const rank: int
    var freeBlocks: seq<FreeBlock>
    var procWork: int
    var prevProcWork: int
    var sampleWorkInfo: seq<WorkInfo>

    /** `proc_work` is the work of the free blocks, as far as 32 bits hold it. */
    ghost predicate Valid()
      reads this
    {
      Proper(freeBlocks) && procWork == SumWork(freeBlocks) % WRAP
    }

    constructor (rank: int)
      ensures Valid() && freeBlocks == [] && this.rank == rank && sampleWorkInfo == []
    {
      this.rank, freeBlocks, procWork, prevProcWork, sampleWorkInfo := rank, [], NO_WORK, NO_WORK, [];
    }

    method InitFreeBlocks(gids: seq<int>, work: seq<int>)
      requires |gids| == |work| && forall i :: 0 <= i < |gids| ==> gids[i] >= 0 && 0 <= work[i] < WRAP
      modifies this`freeBlocks, this`procWork, this`prevProcWork
      ensures Valid() && prevProcWork == procWork
      ensures freeBlocks == seq(|gids|, i requires 0 <= i < |gids| => FreeBlock(gids[i], work[i], rank, rank))
    {
      freeBlocks := [];
      var totWork := 0;
      for i := 0 to |gids|
        invariant |freeBlocks| == i && Proper(freeBlocks)
        invariant forall j :: 0 <= j < i ==> freeBlocks[j] == FreeBlock(gids[j], work[j], rank, rank)
        invariant totWork == SumWork(freeBlocks) % WRAP
      {
        SumAppend(freeBlocks, FreeBlock(gids[i], work[i], rank, rank));
        More32(SumWork(freeBlocks), work[i], SumWork(freeBlocks) + work[i]);
        freeBlocks := freeBlocks + [FreeBlock(gids[i], work[i], rank, rank)];
        totWork := (totWork + work[i]) % WRAP;
      }
      procWork := totWork;
      prevProcWork := totWork;
    }

    method AnyFreeBlocks() returns (any: bool)
      ensures any == (freeBlocks != [])
    {
      any := |freeBlocks| > 0;
    }

    /** Takes out the first heaviest block. The block's origin process is not copied: `block'` keeps the
        one `block` came in with. */
    method GrabHeaviest(block: FreeBlock) returns (retval: int, block': FreeBlock)
      requires Valid()
      modifies this`freeBlocks, this`procWork
      ensures Valid()
      ensures old(freeBlocks) == [] ==>
          freeBlocks == [] && retval == NO_GID && block' == FreeBlock(NO_GID, NO_WORK, NO_PROC, block.originProc)
      ensures old(freeBlocks) != [] ==>
                var i := Heaviest(old(freeBlocks), |old(freeBlocks)|);
                var h := old(freeBlocks)[i];
                && freeBlocks == SwapOut(old(freeBlocks), i)
                && retval == h.gid && block' == FreeBlock(h.gid, h.work, h.srcProc, block.originProc)
    {
      retval := NO_GID;
      block' := FreeBlock(NO_GID, NO_WORK, NO_PROC, block.originProc);
      var heaviestIdx;
      retval, heaviestIdx := FindHeaviest();
      if retval >= 0 {
        var back := TakeOut(heaviestIdx);
        block' := FreeBlock(back.gid, back.work, back.srcProc, block.originProc);
      }
    }

    method UpdateSampleWorkInfo(info: WorkInfo)
      modifies this`sampleWorkInfo
      ensures IsUpdate(old(sampleWorkInfo), info, sampleWorkInfo)
    {
      var i := 0;
      while i < |sampleWorkInfo| && sampleWorkInfo[i].procRank != info.procRank
        invariant 0 <= i <= |sampleWorkInfo|
        invariant Merged(sampleWorkInfo, info) == sampleWorkInfo[..i] + Merged(sampleWorkInfo[i..], info)
      {
        i := i + 1;
      }
      if i < |sampleWorkInfo| {
        assert sampleWorkInfo[i := info] == sampleWorkInfo[..i] + ([info] + sampleWorkInfo[i..][1..]);
        sampleWorkInfo := sampleWorkInfo[i := info];
      } else {
        assert sampleWorkInfo[i..] == [];
        sampleWorkInfo := sampleWorkInfo + [info];
      }
      assert sampleWorkInfo == Merged(old(sampleWorkInfo), info);
      sampleWorkInfo := SortByWork(sampleWorkInfo);
    }

    /** The scan for the first heaviest block. */
    method FindHeaviest() returns (retval: int, heaviestIdx: nat)
      ensures freeBlocks == [] ==> retval == NO_GID
      ensures freeBlocks != [] ==>
                heaviestIdx == Heaviest(freeBlocks, |freeBlocks|) && retval == freeBlocks[heaviestIdx].gid
    {
      var maxWork := NO_WORK;
      retval, heaviestIdx := NO_GID, 0;
      for i := 0 to |freeBlocks|
        invariant i > 0 ==>
                    && heaviestIdx == Heaviest(freeBlocks, i) && retval == freeBlocks[heaviestIdx].gid
                    && maxWork == freeBlocks[heaviestIdx].work
        invariant i == 0 ==> retval == NO_GID
      {
        if i == 0 || freeBlocks[i].work > maxWork {
          retval, maxWork, heaviestIdx := freeBlocks[i].gid, freeBlocks[i].work, i;
        }
      }
    }

    /** Swaps block i with the last one and takes it off the end. */
    method TakeOut(i: nat) returns (back: FreeBlock)
      requires Valid() && i < |freeBlocks|
      modifies this`freeBlocks, this`procWork
      ensures Valid() && freeBlocks == SwapOut(old(freeBlocks), i) && back == old(freeBlocks)[i]
    {
      back := freeBlocks[i];
      SwapOutSpec(freeBlocks, i);
      Less32(SumWork(freeBlocks), back.work, SumWork(SwapOut(freeBlocks, i)));
      procWork := (procWork - back.work) % WRAP;
      freeBlocks := freeBlocks[i := freeBlocks[|freeBlocks| - 1]];
      freeBlocks := freeBlocks[..|freeBlocks| - 1];
    }

    method AddFreeBlock(block: FreeBlock)
      requires Valid() && block.gid >= 0 && 0 <= block.work < WRAP
      modifies this`freeBlocks, this`procWork
      ensures Valid() && freeBlocks == old(freeBlocks) + [block]
    {
      SumAppend(freeBlocks, block);
      More32(SumWork(freeBlocks), block.work, SumWork(freeBlocks + [block]));
      freeBlocks := freeBlocks + [block];
      procWork := (procWork + block.work) % WRAP;
    }

    method UpdateMyWorkInfo() returns (info: WorkInfo)
      ensures info.procRank == rank && info.procWork == procWork && info.nlids == |freeBlocks|
      ensures freeBlocks == [] ==> info.topGid == NO_GID && info.topWork == NO_WORK
      ensures freeBlocks != [] ==>
                var top := freeBlocks[Heaviest(freeBlocks, |freeBlocks|)];
                    info.topGid == top.gid && info.topWork == top.work
    {
      var topGid, topWork := NO_GID, NO_WORK;
      for i := 0 to |freeBlocks|
        invariant i == 0 ==> topGid == NO_GID && topWork == NO_WORK
        invariant i > 0 ==> var top := freeBlocks[Heaviest(freeBlocks, i)]; topGid == top.gid && topWork == top.work
      {
        if i == 0 || topWork < freeBlocks[i].work {
          topGid, topWork := freeBlocks[i].gid, freeBlocks[i].work;
        }
      }
      info := WorkInfo(rank, topGid, topWork, procWork, |freeBlocks|);
    }
  }

  /** Grabbing a block and putting it back keeps everything about it but where it came from first. */
  method PutBack(aux: AuxBlock)
    requires aux.Valid() && aux.freeBlocks != []
    modifies aux`freeBlocks, aux`procWork
    ensures aux.Valid() && aux.procWork == old(aux.procWork)
    ensures var i := Heaviest(old(aux.freeBlocks), |old(aux.freeBlocks)|);
            aux.freeBlocks == SwapOut(old(aux.freeBlocks), i) + [old(aux.freeBlocks)[i].(originProc := NO_PROC)]
  {
    SwapOutSpec(aux.freeBlocks, Heaviest(aux.freeBlocks, |aux.freeBlocks|));
    HeaviestIsMax(aux.freeBlocks, |aux.freeBlocks|);
    ghost var before := aux.freeBlocks;
    var gid, block := aux.GrabHeaviest(FreeBlock(NO_GID, NO_WORK, NO_PROC, NO_PROC));
    ghost var less := aux.freeBlocks;
    aux.AddFreeBlock(block);
    assert aux.freeBlocks[..|aux.freeBlocks| - 1] == less;
    assert SumWork(aux.freeBlocks) == SumWork(before);
  }
}
