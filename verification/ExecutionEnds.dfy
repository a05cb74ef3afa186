/** execute ends under every interleaving: no run is longer than the work there is, and one that cannot go on has all
    threads joined. */
module ExecutionEnds {
  import opened Counting
  import opened Execution

  /** The acts a thread has still to make for the block it holds, and one to find that there is no other. */
  function ActsLeft(j: Job, T: Thread): nat {
    match T.stage
    case Idle => 1
    case Claimed(_) => j.commands + 4
    case Ready(_) => j.commands + 3
    case Running(_, next) => if next < j.commands then j.commands - next + 2 else 2
    case Exited => 0
  }

  function Unclaimed(j: Job, w: Memory): nat {
    if w.idx < j.blocks then j.blocks - w.idx else 0
  }

  function WorkLeft(j: Job, w: Memory): nat {
    Total(T => ActsLeft(j, T), w.threads) + Unclaimed(j, w) * (j.commands + 4)
  }

  lemma EachActLess(j: Job, w: Memory, t: nat, a: Act)
    requires Can(j, w, t, a)
    ensures WorkLeft(j, Next(j, w, t, a)) < WorkLeft(j, w)
  {
    var v := Next(j, w, t, a);
    TotalUpdated(T => ActsLeft(j, T), w.threads, t, ThreadAfter(j, w, w.threads[t], a));
    assert a.Claim? && w.idx < j.blocks ==> Unclaimed(j, w) == Unclaimed(j, v) + 1;
    assert (Unclaimed(j, v) + 1) * (j.commands + 4) == Unclaimed(j, v) * (j.commands + 4) + j.commands + 4;
  }

  lemma StepLess(j: Job, w: Memory, v: Memory)
    requires Steps(j, w, v)
    ensures WorkLeft(j, v) < WorkLeft(j, w)
  {
    var t: nat, a :| Can(j, w, t, a) && v == Next(j, w, t, a);
    EachActLess(j, w, t, a);
  }

  lemma {:induction false} RunBounded(j: Job, ws: seq<Memory>, i: nat)
    requires IsExecution(j, ws) && i < |ws|
    ensures i + WorkLeft(j, ws[i]) <= WorkLeft(j, ws[0])
  {
    if i > 0 {
      RunBounded(j, ws, i - 1);
      StepLess(j, ws[i - 1], ws[i]);
    }
  }

  lemma {:induction false} IdleTotal(j: Job, threads: seq<Thread>)
    requires forall t :: 0 <= t < |threads| ==> threads[t].stage.Idle?
    ensures Total(T => ActsLeft(j, T), threads) == |threads|
  {
    if threads != [] { IdleTotal(j, threads[..|threads| - 1]); }
  }

  /** No run has more acts than one a thread, and for every block four and one a command. */
  lemma EveryRunEnds(j: Job, ws: seq<Memory>)
    requires IsExecution(j, ws)
    ensures |ws| - 1 <= |ws[0].threads| + j.blocks * (j.commands + 4)
  {
    RunBounded(j, ws, |ws| - 1);
    IdleTotal(j, ws[0].threads);
  }

  /** A thread that has not left its loop can always act. */
  lemma NobodyWaits(j: Job, w: Memory, t: nat)
    requires t < |w.threads|
    ensures (exists a :: Can(j, w, t, a)) <==> !w.threads[t].stage.Exited?
  {
    var T := w.threads[t];
    var a := if T.stage.Idle? then Claim else if T.stage.Claimed? then KeepLoaded else if T.stage.Ready?
      then LoadIfNeeded else if T.stage.Running? && T.stage.next < j.commands then RunNext else Finish;
    assert T.stage.Exited? || Can(j, w, t, a);
  }

  /** A run goes on exactly until all threads have joined. */
  lemma GoesOnUntilJoined(j: Job, ws: seq<Memory>)
    requires IsExecution(j, ws) && |ws[|ws| - 1].threads| > 0
    ensures (exists v :: IsExecution(j, ws + [v])) <==> !Joined(ws[|ws| - 1])
  {
    var w := ws[|ws| - 1];
    if !Joined(w) {
      var t :| 0 <= t < |w.threads| && !w.threads[t].stage.Exited?;
      NobodyWaits(j, w, t);
      var a :| Can(j, w, t, a);
      assert Steps(j, w, Next(j, w, t, a));
      assert IsExecution(j, ws + [Next(j, w, t, a)]);
    }
    forall v | IsExecution(j, ws + [v]) ensures !Joined(w) {
      var longer := ws + [v];
      assert Steps(j, longer[|ws| - 1], longer[|ws|]);
      var t: nat, a :| Can(j, w, t, a) && v == Next(j, w, t, a);
      NobodyWaits(j, w, t);
    }
  }
}
