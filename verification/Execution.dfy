/** execute: threads share a counter over the ordered blocks; each keeps a bounded list of the blocks it
    has in memory. Blocks are named by their position in the order. */
module Execution {

  datatype Stage = Idle | Claimed(pos: nat) | Ready(pos: nat) | Running(pos: nat, next: nat) | Exited

  /** `local` of ProcessBlock, and where the thread is in its loop. */
  datatype Thread = Thread(local: seq<nat>, stage: Stage)

  /** `log` lists the commands run so far, as (block, command). */
  datatype Memory = Memory(idx: nat, threads: seq<Thread>, loaded: set<nat>, log: seq<(nat, nat)>)

  /** What the threads work on: the number of blocks and commands, whether all commands skip a block,
      and how many blocks a thread may keep loaded. */
  datatype Job = Job(blocks: nat, commands: nat, skip: nat -> bool, localLimit: nat)

  datatype Act = Claim | KeepLoaded | LoadIfNeeded | RunNext | Finish

  function Current(T: Thread): int {
    match T.stage
    case Claimed(k) => k
    case Ready(k) => k
    case Running(k, _) => k
    case _ => -1
  }

  ghost predicate Can(j: Job, w: Memory, t: nat, a: Act) {
    t < |w.threads| &&
    var T := w.threads[t];
    match a
    case Claim => T.stage.Idle?
    case KeepLoaded => T.stage.Claimed?
    case LoadIfNeeded => T.stage.Ready?
    case RunNext => T.stage.Running? && T.stage.next < j.commands
    case Finish => T.stage.Running? && T.stage.next >= j.commands
  }

  /** Unloads the thread's blocks when its list is full. */
  function MakeRoom(j: Job, local: seq<nat>): seq<nat> {
    if |local| == j.localLimit then [] else local
  }

  function LoadedAfterRoom(j: Job, local: seq<nat>, loaded: set<nat>): set<nat> {
    if |local| == j.localLimit then loaded - (set k | k in local) else loaded
  }

  function ThreadAfter(j: Job, w: Memory, T: Thread, a: Act): Thread {
    match a
    case Claim => T.(stage := if w.idx >= j.blocks then Exited else Claimed(w.idx))
    case KeepLoaded =>
      if !T.stage.Claimed? then T
      else if T.stage.pos in w.loaded then Thread(MakeRoom(j, T.local) + [T.stage.pos], Ready(T.stage.pos))
      else T.(stage := Ready(T.stage.pos))
    case LoadIfNeeded =>
      if !T.stage.Ready? then T
      else if T.stage.pos !in w.loaded && !j.skip(T.stage.pos) then
        Thread(MakeRoom(j, T.local) + [T.stage.pos], Running(T.stage.pos, 0))
      else T.(stage := Running(T.stage.pos, 0))
    case RunNext => if !T.stage.Running? then T else T.(stage := Running(T.stage.pos, T.stage.next + 1))
    case Finish => T.(stage := Idle)
  }

  function LoadedAfter(j: Job, w: Memory, T: Thread, a: Act): set<nat> {
    match a
    case KeepLoaded =>
      if T.stage.Claimed? && T.stage.pos in w.loaded then LoadedAfterRoom(j, T.local, w.loaded) else w.loaded
    case LoadIfNeeded =>
      if T.stage.Ready? && T.stage.pos !in w.loaded && !j.skip(T.stage.pos)
      then LoadedAfterRoom(j, T.local, w.loaded) + {T.stage.pos} else w.loaded
    case _ => w.loaded
  }

  function Next(j: Job, w: Memory, t: nat, a: Act): Memory
    requires t < |w.threads|
  {
    var T := w.threads[t];
    Memory(if a.Claim? then w.idx + 1 else w.idx, w.threads[t := ThreadAfter(j, w, T, a)], LoadedAfter(j, w, T, a),
           if a.RunNext? && T.stage.Running? then w.log + [(T.stage.pos, T.stage.next)] else w.log)
  }

  ghost predicate Steps(j: Job, w: Memory, v: Memory) {
    exists t: nat, a :: Can(j, w, t, a) && v == Next(j, w, t, a)
  }

  ghost predicate Start(j: Job, w: Memory) {
    && w.idx == 0 && w.log == [] && j.localLimit > 0
    && (forall t :: 0 <= t < |w.threads| ==> w.threads[t] == Thread([], Idle))
    && forall k :: k in w.loaded ==> k < j.blocks
  }

  ghost predicate IsExecution(j: Job, ws: seq<Memory>) {
    |ws| > 0 && Start(j, ws[0]) && forall i :: 0 < i < |ws| ==> Steps(j, ws[i - 1], ws[i])
  }

  // ---------- the invariant ----------

  function CountLog(log: seq<(nat, nat)>, x: (nat, nat)): nat {
    if log == [] then 0 else CountLog(log[..|log| - 1], x) + if log[|log| - 1] == x then 1 else 0
  }

  /** The thread holds block k and has not run command c on it yet. */
  predicate Owes(T: Thread, k: nat, c: nat) {
    Current(T) == k && (T.stage.Running? ==> c >= T.stage.next)
  }

  ghost predicate SomeoneOwes(w: Memory, k: nat, c: nat) {
    exists t :: 0 <= t < |w.threads| && Owes(w.threads[t], k, c)
  }

  /** Command c has been run on block k exactly when k was claimed and nobody still owes it. */
  ghost predicate LogOk(j: Job, w: Memory, k: nat, c: nat) {
    CountLog(w.log, (k, c)) == if k < w.idx && k < j.blocks && c < j.commands && !SomeoneOwes(w, k, c) then 1 else 0
  }

  ghost predicate ThreadInv(j: Job, w: Memory, T: Thread) {
    && Current(T) < w.idx && Current(T) < j.blocks
    && (T.stage.Exited? ==> w.idx > j.blocks)
    && |T.local| <= j.localLimit
    && (T.stage.Running? ==> T.stage.next <= j.commands && (!j.skip(T.stage.pos) ==> T.stage.pos in w.loaded))
    && (T.stage.Running? && T.stage.pos in w.loaded ==> T.stage.pos in T.local)
    && (T.stage.Ready? && T.stage.pos in w.loaded ==> T.stage.pos in T.local)
    && forall k :: k in T.local ==> k in w.loaded && k < w.idx && !(T.stage == Claimed(k))
  }

  /** Two threads never hold the same block, nor keep one the other holds. */
  ghost predicate Separate(S: Thread, T: Thread) {
    && (Current(S) >= 0 ==> Current(S) != Current(T) && Current(S) !in T.local)
    && (Current(T) >= 0 ==> Current(T) !in S.local)
    && forall k :: k in S.local ==> k !in T.local
  }

  /** Every loaded block is still to be claimed, or in some thread's care. */
  ghost predicate Accounted(w: Memory, k: nat) {
    k >= w.idx || exists t :: 0 <= t < |w.threads| && Cares(w.threads[t], k)
  }

  predicate Cares(T: Thread, k: nat) {
    k in T.local || T.stage == Claimed(k)
  }

  ghost predicate Inv(j: Job, w: Memory) {
    && j.localLimit > 0
    && (forall t :: 0 <= t < |w.threads| ==> ThreadInv(j, w, w.threads[t]))
    && (forall t, u :: 0 <= t < |w.threads| && 0 <= u < |w.threads| && t != u ==> Separate(w.threads[t], w.threads[u]))
    && (forall k: nat, c: nat :: LogOk(j, w, k, c))
    && (forall k :: k in w.loaded ==> k < j.blocks && Accounted(w, k))
  }

  // ---------- one step ----------

  lemma CountLogAppend(log: seq<(nat, nat)>, y: (nat, nat), x: (nat, nat))
    ensures CountLog(log + [y], x) == CountLog(log, x) + if x == y then 1 else 0
  {
    assert (log + [y])[..|log|] == log;
  }

  /** A thread's step does not change who owes (k, c) when it does not change whether this thread does. */
  lemma OwesUnchanged(j: Job, w: Memory, t: nat, a: Act, k: nat, c: nat)
    requires t < |w.threads| && (Owes(ThreadAfter(j, w, w.threads[t], a), k, c) <==> Owes(w.threads[t], k, c))
    ensures SomeoneOwes(Next(j, w, t, a), k, c) <==> SomeoneOwes(w, k, c)
  {
    var v := Next(j, w, t, a);
    if SomeoneOwes(w, k, c) {
      var u :| 0 <= u < |w.threads| && Owes(w.threads[u], k, c);
      assert Owes(v.threads[u], k, c);
    }
    if SomeoneOwes(v, k, c) {
      var u :| 0 <= u < |v.threads| && Owes(v.threads[u], k, c);
      assert Owes(w.threads[u], k, c);
    }
  }

  lemma LogByClaim(j: Job, w: Memory, t: nat, k: nat, c: nat)
    requires Can(j, w, t, Claim) && LogOk(j, w, k, c)
    ensures LogOk(j, Next(j, w, t, Claim), k, c)
  {
    if k == w.idx && k < j.blocks {
      assert Owes(Next(j, w, t, Claim).threads[t], k, c);
    } else {
      OwesUnchanged(j, w, t, Claim, k, c);
    }
  }

  lemma LogByRun(j: Job, w: Memory, t: nat, k: nat, c: nat)
    requires Inv(j, w) && Can(j, w, t, RunNext)
    ensures LogOk(j, Next(j, w, t, RunNext), k, c)
  {
    var T := w.threads[t];
    CountLogAppend(w.log, (T.stage.pos, T.stage.next), (k, c));
    assert LogOk(j, w, k, c) && ThreadInv(j, w, T);
    if (k, c) == (T.stage.pos, T.stage.next) {
      assert Owes(T, k, c);
      forall u | 0 <= u < |w.threads| ensures !Owes(Next(j, w, t, RunNext).threads[u], k, c) {
        assert u != t ==> Separate(w.threads[t], w.threads[u]);
      }
    } else {
      OwesUnchanged(j, w, t, RunNext, k, c);
    }
  }

  lemma LogByFinish(j: Job, w: Memory, t: nat, k: nat, c: nat)
    requires Can(j, w, t, Finish) && LogOk(j, w, k, c)
    ensures LogOk(j, Next(j, w, t, Finish), k, c)
  {
    if c < j.commands {
      OwesUnchanged(j, w, t, Finish, k, c);
    }
  }

  lemma LogStep(j: Job, w: Memory, t: nat, a: Act, k: nat, c: nat)
    requires Inv(j, w) && Can(j, w, t, a)
    ensures LogOk(j, Next(j, w, t, a), k, c)
  {
    assert LogOk(j, w, k, c);
    match a
    case Claim => LogByClaim(j, w, t, k, c);
    case RunNext => LogByRun(j, w, t, k, c);
    case Finish => LogByFinish(j, w, t, k, c);
    case _ => OwesUnchanged(j, w, t, a, k, c);
  }

  /** Making room only unloads blocks the thread kept, all of which it gives up. */
  lemma RoomSpec(j: Job, T: Thread, loaded: set<nat>)
    requires |T.local| <= j.localLimit && j.localLimit > 0
    ensures |MakeRoom(j, T.local)| < j.localLimit
    ensures forall k :: k in MakeRoom(j, T.local) ==>
        k in T.local && (k in loaded ==> k in LoadedAfterRoom(j, T.local, loaded))
    ensures forall k :: k in LoadedAfterRoom(j, T.local, loaded) ==>
        k in loaded && (k in T.local ==> k in MakeRoom(j, T.local))
    ensures forall k :: k in loaded && k !in T.local ==> k in LoadedAfterRoom(j, T.local, loaded)
  {
  }

  lemma OwnThreadStep(j: Job, w: Memory, t: nat, a: Act)
    requires Inv(j, w) && Can(j, w, t, a)
    ensures ThreadInv(j, Next(j, w, t, a), ThreadAfter(j, w, w.threads[t], a))
  {
    var T := w.threads[t];
    assert ThreadInv(j, w, T);
    RoomSpec(j, T, w.loaded);
  }

  lemma OtherThreadStep(j: Job, w: Memory, t: nat, a: Act, U: Thread)
    requires j.localLimit > 0 && Can(j, w, t, a) && ThreadInv(j, w, w.threads[t]) && ThreadInv(j, w, U)
        && Separate(w.threads[t], U)
    ensures ThreadInv(j, Next(j, w, t, a), U)
  {
    RoomSpec(j, w.threads[t], w.loaded);
  }

  lemma SeparateStep(j: Job, w: Memory, t: nat, a: Act, U: Thread)
    requires j.localLimit > 0 && Can(j, w, t, a) && ThreadInv(j, w, w.threads[t]) && ThreadInv(j, w, U)
        && Separate(w.threads[t], U)
    ensures Separate(ThreadAfter(j, w, w.threads[t], a), U)
  {
    RoomSpec(j, w.threads[t], w.loaded);
  }

  lemma SeparateSym(S: Thread, T: Thread)
    requires Separate(S, T)
    ensures Separate(T, S)
  {
  }

  lemma CaresStep(j: Job, w: Memory, t: nat, a: Act, k: nat)
    requires j.localLimit > 0 && Can(j, w, t, a) && ThreadInv(j, w, w.threads[t]) && Cares(w.threads[t], k)
    requires k in Next(j, w, t, a).loaded
    ensures Cares(ThreadAfter(j, w, w.threads[t], a), k)
  {
    RoomSpec(j, w.threads[t], w.loaded);
  }

  /** What is newly loaded or newly claimed is in the care of the thread. */
  lemma NewlyCared(j: Job, w: Memory, t: nat, a: Act, k: nat)
    requires Can(j, w, t, a) && k in Next(j, w, t, a).loaded && k < j.blocks
    requires k !in w.loaded || (k >= w.idx && k < Next(j, w, t, a).idx)
    ensures Cares(ThreadAfter(j, w, w.threads[t], a), k)
  {
  }

  lemma AccountedStep(j: Job, w: Memory, t: nat, a: Act, k: nat)
    requires Inv(j, w) && Can(j, w, t, a) && k in Next(j, w, t, a).loaded
    ensures k < j.blocks && Accounted(Next(j, w, t, a), k)
  {
    var v := Next(j, w, t, a);
    assert ThreadInv(j, w, w.threads[t]);
    RoomSpec(j, w.threads[t], w.loaded);
    if k !in w.loaded || (k >= w.idx && k < v.idx) {
      NewlyCared(j, w, t, a, k);
      assert Cares(v.threads[t], k);
    } else if k < w.idx {
      assert Accounted(w, k);
      var u :| 0 <= u < |w.threads| && Cares(w.threads[u], k);
      if u == t { CaresStep(j, w, t, a, k); }
      assert Cares(v.threads[u], k);
    }
  }

  lemma InvStep(j: Job, w: Memory, v: Memory)
    requires Inv(j, w) && Steps(j, w, v)
    ensures |v.threads| == |w.threads| && Inv(j, v)
  {
    var t: nat, a :| Can(j, w, t, a) && v == Next(j, w, t, a);
    forall u | 0 <= u < |v.threads| ensures ThreadInv(j, v, v.threads[u]) {
      OwnThreadStep(j, w, t, a);
      if u != t {
        assert Separate(w.threads[t], w.threads[u]);
        OtherThreadStep(j, w, t, a, w.threads[u]);
      }
    }
    forall u, x | 0 <= u < |v.threads| && 0 <= x < |v.threads| && u != x ensures Separate(v.threads[u], v.threads[x]) {
      assert Separate(w.threads[u], w.threads[x]);
      if u == t {
        SeparateStep(j, w, t, a, w.threads[x]);
      } else if x == t {
        SeparateSym(w.threads[u], w.threads[t]);
        SeparateStep(j, w, t, a, w.threads[u]);
        SeparateSym(v.threads[t], v.threads[u]);
      }
    }
    forall k: nat, c: nat ensures LogOk(j, v, k, c) {
      LogStep(j, w, t, a, k, c);
    }
    forall k | k in v.loaded ensures k < j.blocks && Accounted(v, k) {
      AccountedStep(j, w, t, a, k);
    }
  }

  lemma InvStart(j: Job, w: Memory)
    requires Start(j, w)
    ensures Inv(j, w)
  {
  }

  lemma {:induction false} ExecutionInv(j: Job, ws: seq<Memory>, i: nat)
    requires IsExecution(j, ws) && i < |ws|
    ensures |ws[i].threads| == |ws[0].threads| && Inv(j, ws[i])
  {
    if i == 0 {
      InvStart(j, ws[0]);
    } else {
      ExecutionInv(j, ws, i - 1);
      assert Steps(j, ws[i - 1], ws[i]);
      InvStep(j, ws[i - 1], ws[i]);
    }
  }

  ghost predicate Joined(w: Memory) {
    |w.threads| > 0 && forall t :: 0 <= t < |w.threads| ==> w.threads[t].stage.Exited?
  }

  /** Under any interleaving no command runs twice on a block; once all threads have joined, every
      command has run exactly once on every block. */
  lemma EveryCommandOnce(j: Job, ws: seq<Memory>, i: nat, k: nat, c: nat)
    requires IsExecution(j, ws) && i < |ws| && k < j.blocks && c < j.commands
    ensures CountLog(ws[i].log, (k, c)) <= 1
    ensures Joined(ws[i]) ==> CountLog(ws[i].log, (k, c)) == 1
  {
    ExecutionInv(j, ws, i);
    var w := ws[i];
    assert LogOk(j, w, k, c);
    if Joined(w) {
      assert ThreadInv(j, w, w.threads[0]);
    }
  }

  /** A command is never handed an unloaded block unless all commands skip that block. */
  lemma NullOnlyIfSkipped(j: Job, ws: seq<Memory>, i: nat, t: nat)
    requires IsExecution(j, ws) && i < |ws| && Can(j, ws[i], t, RunNext) && !j.skip(ws[i].threads[t].stage.pos)
    ensures ws[i].threads[t].stage.pos in ws[i].loaded
  {
    ExecutionInv(j, ws, i);
    assert ThreadInv(j, ws[i], ws[i].threads[t]);
  }

  // ---------- how many blocks stay loaded ----------

  function AllKept(threads: seq<Thread>): seq<nat> {
    if threads == [] then [] else AllKept(threads[..|threads| - 1]) + threads[|threads| - 1].local
  }

  lemma {:induction false} KeptBound(threads: seq<Thread>, limit: nat)
    requires forall t :: 0 <= t < |threads| ==> |threads[t].local| <= limit
    ensures |AllKept(threads)| <= |threads| * limit
    ensures forall t, k :: 0 <= t < |threads| && k in threads[t].local ==> k in AllKept(threads)
  {
    if threads != [] {
      var n := |threads| - 1;
      KeptBound(threads[..n], limit);
      assert (n + 1) * limit == n * limit + limit;
      forall t, k | 0 <= t < |threads| && k in threads[t].local ensures k in AllKept(threads) {
        if t < n { assert k in threads[..n][t].local; }
      }
    }
  }

  lemma {:induction false} SetWithin(s: set<nat>, kept: seq<nat>)
    requires forall k :: k in s ==> k in kept
    ensures |s| <= |kept|
  {
    if kept == [] {
      assert s == {};
    } else {
      var n := |kept| - 1;
      SetWithin(s - {kept[n]}, kept[..n]);
    }
  }

  /** Once all threads have joined, no more blocks are loaded than the threads may keep together. */
  lemma LoadedWithinLimit(j: Job, ws: seq<Memory>, i: nat)
    requires IsExecution(j, ws) && i < |ws| && Joined(ws[i])
    ensures |ws[i].loaded| <= |ws[0].threads| * j.localLimit
  {
    ExecutionInv(j, ws, i);
    var w := ws[i];
    assert ThreadInv(j, w, w.threads[0]);
    KeptBound(w.threads, j.localLimit);
    forall k | k in w.loaded ensures k in AllKept(w.threads) {
      assert Accounted(w, k);
      var t :| 0 <= t < |w.threads| && Cares(w.threads[t], k);
    }
    SetWithin(w.loaded, AllKept(w.threads));
  }

  // ---------- the set-up in execute ----------

  /** Orders the blocks so that the loaded ones come first. */
  method OrderBlocks(loaded: seq<bool>) returns (blocks: seq<nat>, ghost split: nat)
    ensures |blocks| == |loaded| && split <= |blocks|
    ensures forall b :: 0 <= b < |loaded| ==> b in blocks
    ensures forall k :: 0 <= k < |blocks| ==> blocks[k] < |loaded| && (loaded[blocks[k]] <==> k < split)
  {
    blocks, split := [], 0;
    for i := 0 to |loaded|
      invariant |blocks| == i && split <= i
      invariant forall b :: 0 <= b < i ==> b in blocks
      invariant forall k :: 0 <= k < i ==> blocks[k] < i && (loaded[blocks[k]] <==> k < split)
    {
      if loaded[i] {
        blocks := [i] + blocks;
        split := split + 1;
      } else {
        blocks := blocks + [i];
      }
    }
  }

  /** How many threads to launch and how many blocks each may keep; -1 stands for no limit. */
  method PlanThreads(limit: int, threads: nat, size: nat) returns (numThreads: nat, blocksPerThread: nat)
    requires threads > 0 && (limit == -1 || limit > 0)
    ensures 0 < numThreads <= threads
    ensures limit == -1 ==> numThreads == threads && blocksPerThread == size
    ensures limit > 0 ==> numThreads <= limit && (numThreads == threads || numThreads == limit)
    ensures limit > 0 ==>
              blocksPerThread > 0 && numThreads * blocksPerThread <= limit < numThreads * (blocksPerThread + 1)
  {
    if limit == -1 {
      numThreads := threads;
      blocksPerThread := size;
    } else {
      numThreads := if threads < limit then threads else limit;
      blocksPerThread := limit / numThreads;
      PerThread(limit, numThreads);
    }
  }

  lemma PerThread(limit: int, n: int)
    requires 0 < n <= limit
    ensures limit / n > 0 && n * (limit / n) <= limit < n * (limit / n + 1)
  {
    var q := limit / n;
    assert n * q + limit % n == limit;
    assert q <= 0 ==> n * q <= 0;
    assert n * (q + 1) == n * q + n;
  }

  /** With the plan made for a limit, the fatal error after the threads have joined is not reached. */
  lemma NoFatal(j: Job, ws: seq<Memory>, i: nat, limit: int)
    requires IsExecution(j, ws) && i < |ws| && Joined(ws[i]) && limit > 0 && |ws[0].threads| * j.localLimit <= limit
    ensures |ws[i].loaded| <= limit
  {
    LoadedWithinLimit(j, ws, i);
  }
}
