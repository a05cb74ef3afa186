/** The per-process termination detector of iexchange: the work counter, the dirty bit and the
    four-valued state that cycles through a nonblocking barrier and a nonblocking all-reduce. */
module IExchangeControl {

  import opened Options

  /** `local_work_`, `dirty` and `state` of one process. */
  datatype Counters = Counters(work: int, dirty: bool, state: int)

  /** The collective call, if any, that one invocation of `control` posts. */
  datatype Action = Nothing | EnterBarrier | Vote(dirty: bool)

  function AddWork(c: Counters, w: int): Counters {
    c.(work := c.work + w, dirty := c.dirty || c.work + w > 0)
  }

  /** One invocation of `control`. `barrierDone` and `verdict` are what testing the pending request
      reports: whether the barrier has completed, and the OR of all votes once the all-reduce has. */
  function Control(c: Counters, barrierDone: bool, verdict: Option<bool>): (Counters, Action) {
    if c.state == 0 && c.work == 0 then
      (c.(dirty := false, state := 1), EnterBarrier)
    else if c.state == 1 && barrierDone then
      (c.(state := 2), Vote(c.dirty))
    else if c.state == 2 && verdict.Some? then
      (c.(state := if verdict.value then 0 else 3), Nothing)
    else
      (c, Nothing)
  }

  class IExchangeInfoCollective {
    var localWork: int
    var dirty: bool
    var localDirty: bool
    var state: int

    ghost function View(): Counters
      reads this
    {
      Counters(localWork, dirty, state)
    }

    constructor ()
      ensures View() == Counters(0, false, 0)
    {
      localWork, dirty, localDirty, state := 0, false, false, 0;
    }

    method AllDone() returns (done: bool)
      ensures done == (View().state == 3)
    {
      done := state == 3;
    }

    method AddWorkUnits(work: int)
      modifies this
      ensures View() == AddWork(old(View()), work)
      ensures localDirty == old(localDirty)
    {
      localWork := localWork + work;
      if localWork > 0 {
        dirty := true;
      }
    }

    /** The requests live in MPI: the caller passes in what `test` reports, and `action` tells which
        collective this call posts. */
    method ControlOnce(barrierDone: bool, verdict: Option<bool>) returns (action: Action)
      modifies this
      ensures (View(), action) == Control(old(View()), barrierDone, verdict)
      ensures action.Vote? ==> localDirty == action.dirty
    {
      action := Nothing;
      if state == 0 && localWork == 0 {
        action := EnterBarrier;
        dirty := false;
        state := 1;
      } else if state == 1 {
        if barrierDone {
          localDirty := dirty;
          action := Vote(localDirty);
          state := 2;
        }
      } else if state == 2 {
        if verdict.Some? {
          if !verdict.value {
            state := 3;
          } else {
            state := 0;
          }
        }
      }
    }
  }
}
