/** How many blocks `execute` holds while its threads work: exactly when some interleaving exceeds the
    limit. */
module ExecutionLimit {
  import opened Arith
  import opened Execution

  /** The loaded blocks come first in the order: they are the positions below m. */
  ghost predicate Ordered(w: Memory, m: nat) {
    forall k: nat :: k in w.loaded <==> k < m
  }

  /** Positions below n that are in memory at the start or that some command does not skip. */
  function Wanted(j: Job, m: nat, n: nat): nat {
    if n == 0 then 0 else Wanted(j, m, n - 1) + if n - 1 < m || !j.skip(n - 1) then 1 else 0
  }

  function ThreadCount(limit: nat, threads: nat): nat {
    if threads < limit then threads else limit
  }

  // ---------- never more ----------

  /** A thread that has claimed a loaded block and not yet put it on its list: it may hold one block more
      than it may keep. All of these were in memory at the start. */
  predicate Between(w: Memory, T: Thread) {
    T.stage.Claimed? && T.stage.pos in w.loaded
  }

  ghost predicate ClaimedInv(w: Memory, T: Thread, m: nat) {
    T.stage.Claimed? ==>
      (forall k :: k in T.local ==> k < T.stage.pos) && (T.stage.pos >= m ==> T.stage.pos !in w.loaded)
  }

  /** Every loaded block was in memory at the start, or has been claimed and is wanted. */
  ghost predicate LoadedInv(j: Job, w: Memory, m: nat) {
    forall k :: k in w.loaded ==> k < m || (k < w.idx && !j.skip(k))
  }

  ghost predicate LimitInv(j: Job, w: Memory, m: nat) {
    && Inv(j, w) && LoadedInv(j, w, m)
    && forall t :: 0 <= t < |w.threads| ==> ClaimedInv(w, w.threads[t], m)
  }

  lemma LoadedStep(j: Job, w: Memory, t: nat, a: Act, m: nat)
    requires Can(j, w, t, a) && LoadedInv(j, w, m) && ThreadInv(j, w, w.threads[t])
    ensures LoadedInv(j, Next(j, w, t, a), m)
  {
  }

  lemma OwnClaim(j: Job, w: Memory, t: nat, a: Act, m: nat)
    requires Can(j, w, t, a) && LoadedInv(j, w, m) && ThreadInv(j, w, w.threads[t]) && ClaimedInv(w, w.threads[t], m)
    ensures ClaimedInv(Next(j, w, t, a), ThreadAfter(j, w, w.threads[t], a), m)
  {
  }

  lemma OtherClaim(j: Job, w: Memory, t: nat, a: Act, U: Thread, m: nat)
    requires Can(j, w, t, a) && Separate(w.threads[t], U) && ClaimedInv(w, U, m)
    ensures ClaimedInv(Next(j, w, t, a), U, m)
  {
  }

  lemma LimitStep(j: Job, w: Memory, v: Memory, m: nat)
    requires LimitInv(j, w, m) && Steps(j, w, v)
    ensures LimitInv(j, v, m) && |v.threads| == |w.threads|
  {
    InvStep(j, w, v);
    var t: nat, a :| Can(j, w, t, a) && v == Next(j, w, t, a);
    assert ThreadInv(j, w, w.threads[t]);
    LoadedStep(j, w, t, a, m);
    forall u | 0 <= u < |v.threads| ensures ClaimedInv(v, v.threads[u], m) {
      if u == t {
        OwnClaim(j, w, t, a, m);
      } else {
        assert Separate(w.threads[t], w.threads[u]);
        OtherClaim(j, w, t, a, w.threads[u], m);
      }
    }
  }

  lemma {:induction false} LimitRun(j: Job, ws: seq<Memory>, i: nat, m: nat)
    requires IsExecution(j, ws) && i < |ws| && Ordered(ws[0], m)
    ensures LimitInv(j, ws[i], m) && |ws[i].threads| == |ws[0].threads|
  {
    if i == 0 {
      InvStart(j, ws[0]);
    } else {
      LimitRun(j, ws, i - 1, m);
      assert Steps(j, ws[i - 1], ws[i]);
      LimitStep(j, ws[i - 1], ws[i], m);
    }
  }

  // ---------- counting ----------

  /** How many threads are between claiming a loaded block and keeping it. */
  function CountBetween(w: Memory, n: nat): (c: nat)
    requires n <= |w.threads|
    ensures c <= n
  {
    if n == 0 then 0 else CountBetween(w, n - 1) + if Between(w, w.threads[n - 1]) then 1 else 0
  }

  /** All that these threads hold, and all that the others keep. */
  function HeldBetween(w: Memory, n: nat): seq<nat>
    requires n <= |w.threads|
  {
    if n == 0 then []
    else if Between(w, w.threads[n - 1])
    then HeldBetween(w, n - 1) + w.threads[n - 1].local + [w.threads[n - 1].stage.pos]
    else HeldBetween(w, n - 1)
  }

  function KeptOthers(w: Memory, n: nat): seq<nat>
    requires n <= |w.threads|
  {
    if n == 0 then []
    else if Between(w, w.threads[n - 1]) then KeptOthers(w, n - 1)
    else KeptOthers(w, n - 1) + w.threads[n - 1].local
  }

  lemma {:induction false} HeldSizes(j: Job, w: Memory, n: nat)
    requires n <= |w.threads| && forall t :: 0 <= t < |w.threads| ==> |w.threads[t].local| <= j.localLimit
    ensures |HeldBetween(w, n)| <= CountBetween(w, n) * (j.localLimit + 1)
    ensures |KeptOthers(w, n)| <= (n - CountBetween(w, n)) * j.localLimit
  {
    if n > 0 {
      HeldSizes(j, w, n - 1);
      var c, b := CountBetween(w, n - 1), j.localLimit;
      assert (c + 1) * (b + 1) == c * (b + 1) + b + 1;
      assert (n - c) * b == (n - 1 - c) * b + b;
    }
  }

  lemma {:induction false} HeldFromStart(j: Job, w: Memory, n: nat, m: nat)
    requires n <= |w.threads| && forall t :: 0 <= t < |w.threads| ==> ClaimedInv(w, w.threads[t], m)
    ensures forall k :: k in HeldBetween(w, n) ==> k < m
  {
    if n > 0 {
      HeldFromStart(j, w, n - 1, m);
      assert ClaimedInv(w, w.threads[n - 1], m);
    }
  }

  lemma {:induction false} CaredIsHeld(w: Memory, n: nat, t: nat, k: nat)
    requires t < n <= |w.threads| && Cares(w.threads[t], k) && k in w.loaded
    ensures k in HeldBetween(w, n) || k in KeptOthers(w, n)
  {
    if t < n - 1 { CaredIsHeld(w, n - 1, t, k); }
  }

  /** Once a block has been loaded, all loaded ones are in the care of some thread. */
  lemma LoadedIsHeld(j: Job, w: Memory, m: nat, k: nat)
    requires LimitInv(j, w, m) && w.idx > m && k in w.loaded
    ensures k in HeldBetween(w, |w.threads|) || k in KeptOthers(w, |w.threads|)
  {
    assert Accounted(w, k);
    var t :| 0 <= t < |w.threads| && Cares(w.threads[t], k);
    CaredIsHeld(w, |w.threads|, t, k);
  }

  function Below(m: nat): (s: set<nat>)
    ensures |s| == m && forall k: nat :: k in s <==> k < m
  {
    if m == 0 then {} else Below(m - 1) + {m - 1}
  }

  lemma SubsetSize<A>(s: set<A>, t: set<A>)
    requires s <= t
    ensures |s| <= |t|
  {
    assert t == s + (t - s);
  }

  /** A set that is covered by two lists, one of them within the first m positions. */
  lemma SplitSize(s: set<nat>, held: seq<nat>, kept: seq<nat>, m: nat)
    requires (forall k :: k in s ==> k in held || k in kept) && forall k :: k in held ==> k < m
    ensures |s| <= m + |kept| && |s| <= |held| + |kept|
  {
    var a, b := set k | k in s && k in held, set k | k in s && k !in held;
    SetWithin(a, held);
    SetWithin(b, kept);
    SubsetSize(a, Below(m));
    assert s == a + b;
  }

  /** What is loaded, split by who holds it. */
  lemma TwoParts(j: Job, w: Memory, m: nat)
    requires LimitInv(j, w, m) && w.idx > m
    ensures var c := CountBetween(w, |w.threads|);
            && |w.loaded| <= m + (|w.threads| - c) * j.localLimit
            && |w.loaded| <= c * (j.localLimit + 1) + (|w.threads| - c) * j.localLimit
  {
    forall t | 0 <= t < |w.threads| ensures |w.threads[t].local| <= j.localLimit && ClaimedInv(w, w.threads[t], m) {
      assert ThreadInv(j, w, w.threads[t]);
    }
    HeldSizes(j, w, |w.threads|);
    HeldFromStart(j, w, |w.threads|, m);
    var held, kept := HeldBetween(w, |w.threads|), KeptOthers(w, |w.threads|);
    forall k | k in w.loaded ensures k in held || k in kept {
      LoadedIsHeld(j, w, m, k);
    }
    SplitSize(w.loaded, held, kept, m);
  }

  /** The arithmetic: c of T threads are between claiming and keeping, each keeps up to B, and the limit is
      T * B + r. */
  lemma NotOver(size: nat, T: nat, B: nat, r: nat, c: nat, m: nat)
    requires c <= T && size <= m + (T - c) * B && size <= c * (B + 1) + (T - c) * B && m <= T * B + r
    requires m < (r + 1) * (B + 1) || T < r + 2
    ensures size <= T * B + r
  {
    MulDistr(T - c, c, B);
    assert c * (B + 1) == c * B + c && (r + 1) * (B + 1) == (r + 1) * B + r + 1;
    if r + 1 <= c { MulMono(r + 1, c, B); }
    Linear(size, T, r, c, m, T * B, c * B, (r + 1) * B);
  }

  lemma Linear(size: nat, T: nat, r: nat, c: nat, m: nat, all: int, between: int, one: int)
    requires c <= T && size <= m + all - between && size <= all + c && m <= all + r
    requires (r + 1 <= c ==> one <= between) && (c == T ==> between == all)
    requires m < one + r + 1 || T < r + 2
    ensures size <= all + r
  {
  }

  /** The positions below n that are wanted. */
  function WantedSet(j: Job, m: nat, n: nat): (s: set<nat>)
    ensures |s| == Wanted(j, m, n)
    ensures forall k: nat :: k in s <==> k < n && (k < m || !j.skip(k))
  {
    if n == 0 then {}
    else if n - 1 < m || !j.skip(n - 1) then WantedSet(j, m, n - 1) + {n - 1} else WantedSet(j, m, n - 1)
  }

  lemma OnlyWanted(j: Job, w: Memory, m: nat)
    requires LimitInv(j, w, m)
    ensures |w.loaded| <= Wanted(j, m, j.blocks)
  {
    SubsetSize(w.loaded, WantedSet(j, m, j.blocks));
  }

  lemma NoneLoadedYet(j: Job, w: Memory, m: nat)
    requires LoadedInv(j, w, m) && w.idx <= m
    ensures |w.loaded| <= m
  {
    SubsetSize(w.loaded, Below(m));
  }

  /** Whether some interleaving of the threads goes over the limit: it leaves at least two threads more than
      its remainder, there are more blocks to be held than it allows, and enough of them are in memory at the
      start to fill up the remainder's threads and one more, each with one block too many. */
  predicate GoesOver(j: Job, limit: nat, T: nat, m: nat)
    requires T > 0
  {
    || m > limit
    || (limit % T + 2 <= T && Wanted(j, m, j.blocks) > limit && m >= (limit % T + 1) * (j.localLimit + 1))
  }

  lemma Quotient(limit: nat, T: nat)
    requires T > 0
    ensures limit / T >= 0 && 0 <= limit % T < T && limit == T * (limit / T) + limit % T
  {
    DivNonneg(limit, T);
    assert (limit / T) * T == T * (limit / T);
  }

  lemma NeverOver(j: Job, ws: seq<Memory>, i: nat, limit: nat, m: nat)
    requires IsExecution(j, ws) && i < |ws| && Ordered(ws[0], m) && |ws[0].threads| > 0
    requires j.localLimit == limit / |ws[0].threads| && !GoesOver(j, limit, |ws[0].threads|, m)
    ensures |ws[i].loaded| <= limit
  {
    var T := |ws[0].threads|;
    LimitRun(j, ws, i, m);
    var w := ws[i];
    if w.idx <= m {
      NoneLoadedYet(j, w, m);
    } else if Wanted(j, m, j.blocks) <= limit {
      OnlyWanted(j, w, m);
    } else {
      TwoParts(j, w, m);
      Quotient(limit, T);
      NotOver(|w.loaded|, T, j.localLimit, limit % T, CountBetween(w, T), m);
    }
  }

  // ---------- a run that goes over ----------

  ghost predicate LeadsTo(j: Job, ws: seq<Memory>, start: Memory, end: Memory) {
    IsExecution(j, ws) && ws[0] == start && ws[|ws| - 1] == end
  }

  lemma OneStep(j: Job, ws: seq<Memory>, start: Memory, w: Memory, t: nat, a: Act) returns (ws': seq<Memory>)
    requires LeadsTo(j, ws, start, w) && Can(j, w, t, a)
    ensures LeadsTo(j, ws', start, Next(j, w, t, a))
  {
    assert Steps(j, w, Next(j, w, t, a));
    ws' := ws + [Next(j, w, t, a)];
  }

  /** The commands on a block run one after another, and the thread is idle again. */
  lemma {:induction false} RunAll(j: Job, ws: seq<Memory>, start: Memory, w: Memory, t: nat)
    returns (ws': seq<Memory>, v: Memory)
    requires LeadsTo(j, ws, start, w) && t < |w.threads| && w.threads[t].stage.Running?
    ensures LeadsTo(j, ws', start, v) && v.idx == w.idx && v.loaded == w.loaded
    ensures v.threads == w.threads[t := Thread(w.threads[t].local, Idle)]
    decreases j.commands - w.threads[t].stage.next
  {
    if w.threads[t].stage.next < j.commands {
      var u := Next(j, w, t, RunNext);
      ws' := OneStep(j, ws, start, w, t, RunNext);
      ws', v := RunAll(j, ws', start, u, t);
    } else {
      v := Next(j, w, t, Finish);
      ws' := OneStep(j, ws, start, w, t, Finish);
    }
  }

  function KeptAfter(j: Job, w: Memory, t: nat): seq<nat>
    requires t < |w.threads|
  {
    if w.idx in w.loaded || !j.skip(w.idx) then w.threads[t].local + [w.idx] else w.threads[t].local
  }

  function LoadedWith(j: Job, w: Memory): set<nat> {
    if j.skip(w.idx) then w.loaded else w.loaded + {w.idx}
  }

  /** An idle thread with room on its list claims the next block and gets it into memory. */
  lemma UpToRunning(j: Job, ws: seq<Memory>, start: Memory, w: Memory, t: nat)
    returns (ws': seq<Memory>, v: Memory)
    requires LeadsTo(j, ws, start, w) && t < |w.threads| && w.threads[t].stage.Idle?
    requires w.idx < j.blocks && |w.threads[t].local| < j.localLimit
    ensures LeadsTo(j, ws', start, v) && v.idx == w.idx + 1 && v.loaded == LoadedWith(j, w)
    ensures v.threads == w.threads[t := Thread(KeptAfter(j, w, t), Running(w.idx, 0))]
  {
    var a := Next(j, w, t, Claim);
    ws' := OneStep(j, ws, start, w, t, Claim);
    var b := Next(j, a, t, KeepLoaded);
    ws' := OneStep(j, ws', start, a, t, KeepLoaded);
    v := Next(j, b, t, LoadIfNeeded);
    ws' := OneStep(j, ws', start, b, t, LoadIfNeeded);
  }

  /** It works on the block and keeps it, if it is in memory. */
  lemma OneBlock(j: Job, ws: seq<Memory>, start: Memory, w: Memory, t: nat) returns (ws': seq<Memory>, v: Memory)
    requires LeadsTo(j, ws, start, w) && t < |w.threads| && w.threads[t].stage.Idle?
    requires w.idx < j.blocks && |w.threads[t].local| < j.localLimit
    ensures LeadsTo(j, ws', start, v) && v.idx == w.idx + 1 && v.loaded == LoadedWith(j, w)
    ensures v.threads == w.threads[t := Thread(KeptAfter(j, w, t), Idle)]
  {
    var u;
    ws', u := UpToRunning(j, ws, start, w, t);
    ws', v := RunAll(j, ws', start, u, t);
    assert v.threads == w.threads[t := Thread(KeptAfter(j, w, t), Idle)];
  }

  /** Thread t is at work, with room or just out of it; those after it have not begun. */
  ghost predicate AtWork(j: Job, w: Memory, T: nat, t: nat) {
    && |w.threads| == T && t < T && w.threads[t].stage.Idle? && |w.threads[t].local| <= j.localLimit
    && forall u :: t < u < T ==> w.threads[u] == Thread([], Idle)
  }

  /** The wanted blocks below idx have been loaded, and nothing has been unloaded. */
  ghost predicate AllWanted(j: Job, w: Memory, m: nat) {
    w.idx <= j.blocks && forall k: nat :: k in w.loaded <==> k < m || (k < w.idx && !j.skip(k))
  }

  lemma KeepsWanted(j: Job, w: Memory, v: Memory, m: nat)
    requires AllWanted(j, w, m) && w.idx < j.blocks && v.idx == w.idx + 1 && v.loaded == LoadedWith(j, w)
    ensures AllWanted(j, v, m)
  {
  }

  /** So many blocks for each of n threads. */
  function Blocks(n: nat, each: nat): nat {
    if n == 0 then 0 else Blocks(n - 1, each) + each
  }

  lemma {:induction false} BlocksIs(n: nat, each: nat)
    ensures Blocks(n, each) == n * each
  {
    if n > 0 {
      BlocksIs(n - 1, each);
      MulDistr(n - 1, 1, each);
    }
  }

  /** Threads below `goal` fill their lists with blocks from the start and each claim one more. */
  lemma {:induction false} Crowd(j: Job, ws: seq<Memory>, start: Memory, w: Memory, T: nat, m: nat, t: nat, goal: nat)
    returns (ws': seq<Memory>, v: Memory)
    requires LeadsTo(j, ws, start, w) && AtWork(j, w, T, t) && AllWanted(j, w, m) && m <= j.blocks
    requires t <= goal < T && (t == goal ==> w.threads[t].local == [])
    requires w.idx + Blocks(goal - t, j.localLimit + 1) <= m + |w.threads[t].local|
    ensures LeadsTo(j, ws', start, v) && AtWork(j, v, T, goal) && AllWanted(j, v, m) && v.threads[goal].local == []
    ensures v.idx == w.idx + Blocks(goal - t, j.localLimit + 1) - |w.threads[t].local|
    decreases goal - t, j.localLimit - |w.threads[t].local|
  {
    if t == goal {
      ws', v := ws, w;
    } else if |w.threads[t].local| < j.localLimit {
      var u;
      ws', u := OneBlock(j, ws, start, w, t);
      KeepsWanted(j, w, u, m);
      ws', v := Crowd(j, ws', start, u, T, m, t, goal);
    } else {
      var u := Next(j, w, t, Claim);
      ws' := OneStep(j, ws, start, w, t, Claim);
      ws', v := Crowd(j, ws', start, u, T, m, t + 1, goal);
    }
  }

  lemma MulLess(a: int, b: int, m: int)
    requires a * m < b * m && m >= 0
    ensures a < b
  {
    if b <= a { MulMono(b, a, m); }
  }

  /** The arithmetic: a thread that is full is not the last one as long as the limit is not exceeded. */
  lemma NotLast(limit: nat, T: nat, t: nat, B: nat)
    requires t < T && t * B + limit % T + 1 + B <= limit && B == limit / T
    ensures t + 1 < T && (t + 1) * B == t * B + B
  {
    Quotient(limit, T);
    MulDistr(t, 1, B);
    MulLess(t + 1, T, B);
  }

  /** The other threads fill their lists until there is one block too many. */
  lemma {:induction false} Fill(j: Job, ws: seq<Memory>, start: Memory, w: Memory, T: nat, m: nat, t: nat, limit: nat)
    returns (ws': seq<Memory>, v: Memory)
    requires LeadsTo(j, ws, start, w) && AtWork(j, w, T, t) && AllWanted(j, w, m)
    requires j.localLimit == limit / T && j.localLimit > 0 && Wanted(j, m, j.blocks) > limit
    requires Wanted(j, m, w.idx) == t * j.localLimit + limit % T + 1 + |w.threads[t].local|
    requires Wanted(j, m, w.idx) <= limit + 1
    ensures LeadsTo(j, ws', start, v) && AllWanted(j, v, m) && Wanted(j, m, v.idx) == limit + 1
    decreases j.blocks - w.idx, T - t
  {
    if Wanted(j, m, w.idx) == limit + 1 {
      ws', v := ws, w;
    } else if |w.threads[t].local| == j.localLimit {
      NotLast(limit, T, t, j.localLimit);
      ws', v := Fill(j, ws, start, w, T, m, t + 1, limit);
    } else {
      var u;
      ws', u := OneBlock(j, ws, start, w, t);
      KeepsWanted(j, w, u, m);
      ws', v := Fill(j, ws', start, u, T, m, t, limit);
    }
  }

  lemma {:induction false} WantedAtStart(j: Job, m: nat, n: nat)
    requires n <= m
    ensures Wanted(j, m, n) == n
  {
    if n > 0 { WantedAtStart(j, m, n - 1); }
  }

  function Beginning(T: nat, m: nat): Memory {
    Memory(0, seq(T, _ => Thread([], Idle)), Below(m), [])
  }

  lemma StartsOrdered(j: Job, T: nat, m: nat)
    requires m <= j.blocks && j.localLimit > 0
    ensures LeadsTo(j, [Beginning(T, m)], Beginning(T, m), Beginning(T, m)) && Ordered(Beginning(T, m), m)
    ensures AllWanted(j, Beginning(T, m), m) && (T > 0 ==> AtWork(j, Beginning(T, m), T, 0))
  {
  }

  /** A run from the ordered blocks that ends with more blocks loaded than the limit. */
  ghost predicate Exceeds(j: Job, ws: seq<Memory>, limit: nat, T: nat, m: nat) {
    IsExecution(j, ws) && |ws[0].threads| == T && Ordered(ws[0], m) && |ws[|ws| - 1].loaded| > limit
  }

  /** The arithmetic: so many blocks are within one of the limit. */
  lemma CrowdSize(limit: nat, T: nat, B: nat, r: nat)
    requires T > 0 && B == limit / T && r == limit % T && r + 2 <= T
    ensures Blocks(r + 1, B + 1) == (r + 1) * (B + 1) == (r + 1) * B + r + 1 <= limit + 1
  {
    BlocksIs(r + 1, B + 1);
    Quotient(limit, T);
    MulMono(r + 1, T, B);
  }

  lemma Crowded(j: Job, limit: nat, T: nat, m: nat) returns (ws: seq<Memory>, w: Memory)
    requires 0 < T <= limit && m <= j.blocks && j.localLimit == limit / T > 0
    requires limit % T + 2 <= T && m >= (limit % T + 1) * (j.localLimit + 1)
    ensures LeadsTo(j, ws, Beginning(T, m), w) && AtWork(j, w, T, limit % T + 1) && AllWanted(j, w, m)
    ensures w.threads[limit % T + 1].local == []
    ensures Wanted(j, m, w.idx) == (limit % T + 1) * j.localLimit + limit % T + 1 <= limit + 1
  {
    var start, r := Beginning(T, m), limit % T;
    StartsOrdered(j, T, m);
    CrowdSize(limit, T, j.localLimit, r);
    ws, w := Crowd(j, [start], start, start, T, m, 0, r + 1);
    WantedAtStart(j, m, w.idx);
  }

  lemma OverRun(j: Job, limit: nat, T: nat, m: nat) returns (ws: seq<Memory>)
    requires 0 < T <= limit && m <= j.blocks && j.localLimit == limit / T > 0 && GoesOver(j, limit, T, m)
    ensures Exceeds(j, ws, limit, T, m)
  {
    var start := Beginning(T, m);
    StartsOrdered(j, T, m);
    ws := [start];
    if m <= limit {
      var w, v;
      ws, w := Crowded(j, limit, T, m);
      ws, v := Fill(j, ws, start, w, T, m, limit % T + 1, limit);
      SubsetSize(WantedSet(j, m, v.idx), v.loaded);
    }
  }

  /** `execute` with a limit, so many threads and the first m blocks in memory: some interleaving holds more
      blocks than the limit exactly if GoesOver says so. */
  lemma OverLimitIff(j: Job, limit: nat, threads: nat, T: nat, m: nat)
    requires limit > 0 && threads > 0 && T == ThreadCount(limit, threads) && j.localLimit == limit / T && m <= j.blocks
    ensures (exists ws :: Exceeds(j, ws, limit, T, m)) <==> GoesOver(j, limit, T, m)
  {
    PerThread(limit, T);
    if GoesOver(j, limit, T, m) {
      var ws := OverRun(j, limit, T, m);
      assert Exceeds(j, ws, limit, T, m);
    } else {
      forall ws: seq<Memory> ensures !Exceeds(j, ws, limit, T, m) {
        if IsExecution(j, ws) && |ws[0].threads| == T && Ordered(ws[0], m) {
          NeverOver(j, ws, |ws| - 1, limit, m);
        }
      }
    }
  }

  /** Limit two, two threads, blocks 0 and 1 in memory and 2 not: one thread has finished 0 and claimed 1
      without having unloaded 0, the other has claimed and loaded 2. Three blocks are loaded. */
  lemma ThreeForTwo(j: Job) returns (ws: seq<Memory>)
    requires j.blocks == 3 && j.localLimit == 1 && !j.skip(2)
    ensures Exceeds(j, ws, 2, 2, 2) && ws[|ws| - 1].loaded == {0, 1, 2}
    ensures ws[|ws| - 1].threads == [Thread([0], Claimed(1)), Thread([2], Running(2, 0))]
  {
    var start := Beginning(2, 2);
    StartsOrdered(j, 2, 2);
    assert start.threads[0] == Thread([], Idle) && start.threads[1] == Thread([], Idle);
    assert LoadedWith(j, start) == start.loaded;
    AddOne(0);
    AddOne(2);
    var a, v;
    ws, a := OneBlock(j, [start], start, start, 0);
    var b := Next(j, a, 0, Claim);
    ws := OneStep(j, ws, start, a, 0, Claim);
    ws, v := UpToRunning(j, ws, start, b, 1);
    FirstThree(v.loaded);
  }

  lemma AddOne(k: nat)
    ensures [] + [k] == [k]
  {
  }

  lemma FirstThree(s: set<nat>)
    requires forall k: nat :: k in s <==> k < 3
    ensures s == {0, 1, 2} && |s| == 3
  {
    assert s == {0, 1, 2};
  }
}
