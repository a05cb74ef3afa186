/** dynamic_foreach over N processes, each with an executor thread and a balancer thread that share the
    list of free blocks and the master. The master's lock is taken for one access at a time, so the
    balancer may release and add blocks between the executor's looking up a lid and its using it. */
module DynamicProtocol {
  import opened Counting
  import opened Options
  import opened LoadBalance
  import opened MasterBlocks

  /** What is fixed for a run: processes, queued commands, and the two parameters of load balancing. */
  datatype Setting = Setting(nprocs: nat, commands: nat, sampleFrac: real, quantile: real)

  ghost predicate ValidSetting(k: Setting) {
    k.nprocs > 0 && k.commands > 0 && 0.0 <= k.sampleFrac <= 1.0
  }

  /** How many processes are asked for their work. */
  function SampleCount(k: Setting): int
    requires k.nprocs > 0
  {
    (k.sampleFrac * ((k.nprocs - 1) as real)).Floor
  }

  /** A block, and a work info, on the way to process dst. */
  datatype Move = Move(dst: nat, block: FreeBlock)
  datatype Notice = Notice(dst: nat, info: WorkInfo)

  /** The arguments of one command: its block, then its proxy's gid, block and link, each read by lid. */
  datatype Stage = FindBlock | ReadBlock | FindProxy | ReadGid | ReadProxyBlock | ReadLink | CallCommand

  /** The executor's turn on block gid; `hits` tells whose entries the reads of this command got. */
  datatype Turn = Turn(gid: int, cmd: nat, stage: Stage, lid: nat, hits: seq<int>)

  datatype Call = Call(gid: int, cmd: nat, hits: seq<int>)

  /** What a read outside the master's arrays gets. */
  const WILD := -1

  /** The block the balancer has grabbed, and whether it is decided that it goes. */
  datatype Hand = Empty | Holding(block: FreeBlock) | Leaving(block: FreeBlock)

  /** `free` and `work` are the shared list and its total; `aim` is the work and the destination the balancer
      has looked up; `done` is what its last callback returned; `gids` and `lids` are the master's. */
  datatype Proc = Proc(free: seq<FreeBlock>, work: int, inCallback: bool, hand: Hand, done: bool,
                       requested: nat, samples: seq<WorkInfo>, aim: Option<(int, WorkInfo)>,
                       turn: Option<Turn>, executed: seq<int>, calls: seq<Call>,
                       gids: seq<int>, lids: map<int, int>)

  datatype World = World(procs: seq<Proc>, transit: seq<Move>, notices: seq<Notice>)

  datatype Act =
    | ExecutorGrab
    | ExecutorStep
    | BeginCallback
    | Request
    | SendNotice(dst: nat)
    | ReceiveNotice(i: nat, samples: seq<WorkInfo>)
    | Aim
    | BalancerGrab
    | Decide
    | SendHeld
    | ReceiveBlock(i: nat, src: int)
    | EndCallback

  function WorkOf(p: int, P: Proc): WorkInfo {
    if P.free == [] then WorkInfo(p, NO_GID, NO_WORK, P.work, 0)
    else
      var top := P.free[Heaviest(P.free, |P.free|)];
      WorkInfo(p, top.gid, top.work, P.work, |P.free|)
  }

  /** The destination the balancer would look up now, if it gives work away. */
  function TargetOf(k: Setting, P: Proc): Option<WorkInfo> {
    if P.requested == 0 || |P.samples| != P.requested then None
    else
      var t := TargetIndex(P.work, P.samples, k.quantile);
      if t.Some? && 0 <= t.value < |P.samples| then Some(P.samples[t.value]) else None
  }

  /** The three tests a grabbed block must pass to be sent. */
  predicate Passes(P: Proc, b: FreeBlock) {
    && P.aim.Some? && Outweighs(P.aim.value.0, P.aim.value.1.procWork, b.work)
    && b.srcProc != P.aim.value.1.procRank && P.free != []
  }

  ghost predicate Can(k: Setting, w: World, p: nat, a: Act) {
    p < |w.procs| &&
    var P := w.procs[p];
    match a
    case ExecutorGrab => P.turn.None? && P.free != []
    case ExecutorStep => P.turn.Some?
    case BeginCallback => !P.inCallback
    case Request => P.inCallback && P.requested == 0 && P.free != []
    case SendNotice(dst) => P.inCallback && dst < |w.procs|
    case ReceiveNotice(i, samples) =>
      P.inCallback && i < |w.notices| && w.notices[i].dst == p && IsUpdate(P.samples, w.notices[i].info, samples)
    case Aim => P.inCallback && P.hand.Empty? && TargetOf(k, P).Some?
    case BalancerGrab => P.inCallback && P.hand.Empty? && P.aim.Some? && P.free != []
    case Decide => P.inCallback && P.hand.Holding?
    case SendHeld => P.inCallback && P.hand.Leaving? && P.aim.Some? && 0 <= P.aim.value.1.procRank < |w.procs|
    case ReceiveBlock(i, _) => P.inCallback && i < |w.transit| && w.transit[i].dst == p
    case EndCallback => P.inCallback && P.hand.Empty?
  }

  function Grabbed(P: Proc): FreeBlock
    requires P.free != []
  {
    P.free[Heaviest(P.free, |P.free|)]
  }

  function AfterGrab(P: Proc): Proc
    requires P.free != []
  {
    P.(free := SwapOut(P.free, Heaviest(P.free, |P.free|)), work := (P.work - Grabbed(P).work) % WRAP)
  }

  function AfterAdd(P: Proc, b: FreeBlock): Proc {
    P.(free := P.free + [b], work := (P.work + b.work) % WRAP)
  }

  /** `lid`: where block gid is now. */
  function LidOf(P: Proc, gid: int): nat {
    if gid in P.lids && P.lids[gid] >= 0 then P.lids[gid] else |P.gids|
  }

  /** Whose entry a read by lid gets now. */
  function Hit(P: Proc, lid: nat): int {
    if lid < |P.gids| then P.gids[lid] else WILD
  }

  /** The executor's next lookup, read or call. */
  function AfterStep(k: Setting, P: Proc): Proc {
    if P.turn.None? then P else
    var T := P.turn.value;
    match T.stage
    case FindBlock => P.(turn := Some(T.(lid := LidOf(P, T.gid), stage := ReadBlock)))
    case ReadBlock => P.(turn := Some(T.(hits := T.hits + [Hit(P, T.lid)], stage := FindProxy)))
    case FindProxy => P.(turn := Some(T.(lid := LidOf(P, T.gid), stage := ReadGid)))
    case ReadGid => P.(turn := Some(T.(hits := T.hits + [Hit(P, T.lid)], stage := ReadProxyBlock)))
    case ReadProxyBlock => P.(turn := Some(T.(hits := T.hits + [Hit(P, T.lid)], stage := ReadLink)))
    case ReadLink => P.(turn := Some(T.(hits := T.hits + [Hit(P, T.lid)], stage := CallCommand)))
    case CallCommand =>
      var Q := P.(calls := P.calls + [Call(T.gid, T.cmd, T.hits)]);
      if T.cmd + 1 < k.commands then Q.(turn := Some(Turn(T.gid, T.cmd + 1, FindBlock, 0, [])))
      else Q.(turn := None, executed := P.executed + [T.gid])
  }

  /** `release`: the last block takes the freed lid. */
  ghost function AfterRelease(P: Proc, gid: int): Proc {
    if gid in P.lids && 0 <= P.lids[gid] < |P.gids| then
      P.(gids := SwapOut(P.gids, P.lids[gid]), lids := P.lids[P.gids[|P.gids| - 1] := P.lids[gid]] - {gid})
    else P
  }

  /** `add`: the block gets the next lid. */
  function AfterMasterAdd(P: Proc, gid: int): Proc {
    P.(gids := P.gids + [gid], lids := P.lids[gid := |P.gids|])
  }

  ghost function After(k: Setting, w: World, p: nat, P: Proc, a: Act): Proc
    requires k.nprocs > 0
  {
    match a
    case ExecutorGrab =>
      if P.free == [] then P else AfterGrab(P).(turn := Some(Turn(Grabbed(P).gid, 0, FindBlock, 0, [])))
    case ExecutorStep => AfterStep(k, P)
    case BeginCallback => P.(inCallback := true)
    case Request => P.(requested := if SampleCount(k) > 0 then SampleCount(k) else 0)
    case SendNotice(_) => P
    case ReceiveNotice(_, samples) => P.(samples := samples)
    case Aim => if TargetOf(k, P).None? then P else P.(aim := Some((P.work, TargetOf(k, P).value)))
    case BalancerGrab =>
      if P.free == [] then P else AfterGrab(P).(hand := Holding(Grabbed(P).(originProc := NO_PROC)))
    case Decide =>
      if !P.hand.Holding? then P
      else if Passes(P, P.hand.block) then P.(hand := Leaving(P.hand.block))
      else AfterAdd(P, P.hand.block).(hand := Empty, aim := None)
    case SendHeld => if !P.hand.Leaving? then P else AfterRelease(P, P.hand.block.gid).(hand := Empty, aim := None)
    case ReceiveBlock(i, src) =>
      if i >= |w.transit| then P
      else AfterMasterAdd(AfterAdd(P, w.transit[i].block.(srcProc := src)), w.transit[i].block.gid)
    case EndCallback => P.(inCallback := false, done := P.free == [], aim := None)
  }

  ghost function TransitAfter(P: Proc, transit: seq<Move>, a: Act): seq<Move> {
    match a
    case SendHeld =>
      if P.hand.Leaving? && P.aim.Some? && P.aim.value.1.procRank >= 0
      then transit + [Move(P.aim.value.1.procRank, P.hand.block)] else transit
    case ReceiveBlock(i, _) => if i >= |transit| then transit else transit[..i] + transit[i + 1..]
    case _ => transit
  }

  ghost function NoticesAfter(p: nat, P: Proc, notices: seq<Notice>, a: Act): seq<Notice> {
    match a
    case SendNotice(dst) => notices + [Notice(dst, WorkOf(p, P))]
    case ReceiveNotice(i, _) => if i >= |notices| then notices else notices[..i] + notices[i + 1..]
    case _ => notices
  }

  ghost function Next(k: Setting, w: World, p: nat, a: Act): World
    requires p < |w.procs| && k.nprocs > 0
  {
    var P := w.procs[p];
    World(w.procs[p := After(k, w, p, P, a)], TransitAfter(P, w.transit, a), NoticesAfter(p, P, w.notices, a))
  }

  /** After init_free_blocks everywhere: all blocks are free, in the order of their lids. */
  ghost predicate InitialProc(P: Proc, p: int) {
    && Proper(P.free) && P.work == SumWork(P.free) % WRAP && !P.inCallback && P.hand.Empty? && !P.done
    && P.requested == 0 && P.samples == [] && P.aim.None? && P.turn.None? && P.executed == [] && P.calls == []
    && |P.free| == |P.gids| && Inverse(P.gids, P.lids)
    && forall i :: 0 <= i < |P.free| ==>
         P.free[i].gid == P.gids[i] && P.free[i].srcProc == p && P.free[i].originProc == p
  }

  ghost predicate Initial(k: Setting, w: World) {
    && |w.procs| == k.nprocs && w.transit == [] && w.notices == []
    && (forall p :: 0 <= p < |w.procs| ==> InitialProc(w.procs[p], p))
    && (forall p, q, i, j :: 0 <= p < q < |w.procs| && 0 <= i < |w.procs[p].gids| && 0 <= j < |w.procs[q].gids| ==>
          w.procs[p].gids[i] != w.procs[q].gids[j])
  }

  /** worlds[i] becomes worlds[i + 1] by acts[i], an act of one process. */
  ghost predicate IsBalanceRun(k: Setting, worlds: seq<World>, acts: seq<(nat, Act)>) {
    && ValidSetting(k) && |worlds| == |acts| + 1 && Initial(k, worlds[0])
    && forall i :: 0 <= i < |acts| ==> StepsBy(k, worlds[i], acts[i], worlds[i + 1])
  }

  ghost predicate StepsBy(k: Setting, w: World, act: (nat, Act), v: World)
    requires k.nprocs > 0
  {
    Can(k, w, act.0, act.1) && v == Next(k, w, act.0, act.1)
  }
}
