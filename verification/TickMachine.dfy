/**
 Validator processes as a state machine: one step per durable write, one per foreign call,
 and a crash enabled everywhere (validator_state.py, epoch.py, chain.py, atomic.py under
 src/dolores_subnet). Any number of processes run ticks and recoveries; each acts on its own
 program counter only, so that the lock excludes others is something to be proved.
 */
module TickMachine {
  import opened Common
  import opened Rounding
  import opened Scoring
  import opened Replay
  import opened Chain
  import opened EpochFiles
  import opened RuntimeStates

  type Pid = nat

  /** What a tick brings to its epoch: its own `--quota` and the miners it reached. */
  datatype Setup = Setup(quota: nat, active: seq<Hotkey>)

  const NO_SETUP := Setup(0, [])

  /** How an epoch's outcomes become weights: previous average, setup, outcomes. */
  type Planner = (Ema, Setup, seq<Outcome>) -> WeightsPlan

  /** The machine works for any planner and digest; `Validator` is the one the repository runs. */
  datatype Config = Config(sha: Sha, plan: Planner)

  function Validator(r: Rounder, alpha: real, sha: Sha): Config {
    Config(sha, (previous: Ema, setup: Setup, outcomes) =>
             PlanWeights(r, alpha, setup.quota, previous, setup.active, outcomes))
  }

  /** Where a process stands. Every name says what it has just finished. */
  datatype Pc =
    | Outside
    // __enter__
    | Deciding | Advancing
    // the body of a tick
    | Entered | Polled | Scoring
    // apply_weights
    | Submitting | AttemptOpen | Accepted | ReceiptDone | AttemptDone | Unwinding
    // the rest of run_epoch
    | ChainDone | SnapshotDone | PanelDone | WeightsDone | MarkerDone | RollingDone | CommitRollingDone
    // fail_weights and __exit__
    | Abandoning | Exiting
    // recover_receipt
    | Recovering | RecoverRollingDone

  /** A process's memory: lost in a crash. */
  datatype Local = Local(pc: Pc, epoch: int, setup: Setup, outcomes: seq<Outcome>, plan: WeightsPlan,
                         inputs: ChainInputs, result: ChainResult)

  const NO_PLAN := WeightsPlan(map[], map[], map[], None)
  const NO_INPUTS := ChainInputs(false, None, false, DryRunOnly, false, false, false, false)
  const BLANK := Local(Outside, 0, NO_SETUP, [], NO_PLAN, NO_INPUTS, ChainResult(Fallback, "", None))

  /** A `set_weights` invocation, with what was known when it was made. */
  datatype Call = Call(epoch: int, inputs: ChainInputs, plan: WeightsPlan)

  /** What has happened so far; never read by a process. */
  datatype Hist = Hist(allocs: seq<int>, evaluated: seq<int>, calls: seq<Call>, commits: seq<int>,
                       setups: map<int, Setup>)

  const NO_HIST := Hist([], [], [], [], map[])

  /** What the process holding the lock sees and changes. */
  datatype View = View(disk: Disk, hist: Hist, me: Local)

  datatype Action =
    | BeginTick
    | Query
    | Evaluate(setup: Setup)
    | Append(outcome: Outcome)
    | Score
    | UseNullChain
    | UseSubtensor(inputs: ChainInputs)
    | UseForeign(name: string, reason: string)
    | SetWeights(accepted: bool)
    | WriteReceipt
    | CompleteAttempt
    | ReturnFromChain
    | Handle
    | MarkAmbiguous
    | Persist
    | CommitEpoch
    | Abandon
    | Raise
    | Exit(detail: Option<string>)
    | RecoverReceipt

  datatype World = World(disk: Disk, lock: Option<Pid>, procs: map<Pid, Local>, hist: Hist)

  const START := World(EMPTY_DISK, None, map[], NO_HIST)

  /******* One process *******/

  function At(v: View, pc: Pc): View {
    v.(me := v.me.(pc := pc))
  }

  function WriteStateThen(v: View, next: RuntimeState, pc: Pc): View {
    At(v.(disk := v.disk.(state := next)), pc)
  }

  function WriteFilesThen(v: View, f: Files, pc: Pc): View {
    At(v.(disk := WithFiles(v.disk, v.me.epoch, f)), pc)
  }

  /** The files of the epoch this process is working on. */
  function Mine(v: View): Files {
    FilesOf(v.disk, v.me.epoch)
  }

  function Allocating(v: View, next: RuntimeState): View {
    var e := v.disk.state.nextEpochId;
    v.(disk := v.disk.(state := next), hist := v.hist.(allocs := v.hist.allocs + [e]),
       me := v.me.(pc := Entered, epoch := e))
  }

  /** `_begin_locked`: failing a stale epoch and allocating are two writes. */
  function ActBegin(v: View): View {
    if v.me.pc.Deciding? then
      match Begin(v.disk)
      case Refuse(_) => At(v, Outside)
      case FailStale(next) => WriteStateThen(v, next, Advancing)
      case Retry(next) =>
        if next.active.Some? then WriteStateThen(v.(me := v.me.(epoch := next.active.value)), next, Entered) else v
      case Allocate(next) => Allocating(v, next)
    else if v.me.pc.Advancing? then Allocating(v, AllocateFrom(v.disk.state))
    else v
  }

  function ActQuery(cfg: Config, v: View): View {
    if v.me.pc.Entered? then
      match TransitionTo(cfg.sha, v.disk, v.me.epoch, Querying)
      case Move(next) => WriteStateThen(v, next, Polled)
      case _ => At(v, Exiting)
    else v
  }

  function ActEvaluate(cfg: Config, v: View, setup: Setup): View {
    if v.me.pc.Entered? || v.me.pc.Polled? then
      match TransitionTo(cfg.sha, v.disk, v.me.epoch, Evaluating)
      case Move(next) =>
        WriteStateThen(v.(hist := v.hist.(evaluated := v.hist.evaluated + [v.me.epoch],
                                          setups := v.hist.setups[v.me.epoch := setup]),
                          me := v.me.(setup := setup, outcomes := [])),
                       next, Pc.Scoring)
      case _ => At(v, Exiting)
    else v
  }

  function ActAppend(v: View, o: Outcome): View {
    if v.me.pc.Scoring? && o.hotkey in v.me.setup.active then
      v.(disk := v.disk.(rows := v.disk.rows + [Row(v.me.epoch, o)]),
         me := v.me.(outcomes := v.me.outcomes + [o]))
    else v
  }

  /** Compute the weights from the rolling average and enter weights_submitting. */
  function ActScore(cfg: Config, v: View): View {
    if v.me.pc.Scoring? then
      match TransitionTo(cfg.sha, v.disk, v.me.epoch, WeightsSubmitting)
      case Move(next) =>
        var plan := cfg.plan(v.disk.rolling, v.me.setup, v.me.outcomes);
        WriteStateThen(v.(me := v.me.(plan := plan)), next, Submitting)
      case _ => At(v, Exiting)
    else v
  }

  function ReasonText(reason: Option<WeightReason>): string {
    match reason
    case None => "offline"
    case Some(AllZero) => "all_zero"
    case Some(DegradedAllInfra) => "epoch_degraded_all_infra"
  }

  predicate AllWeightsZero(plan: WeightsPlan) {
    forall h :: h in plan.weights ==> plan.weights[h] == 0.0
  }

  function ActChain(v: View, a: Action): View {
    var e := v.me.epoch;
    match a
    case UseNullChain =>
      if v.me.pc.Submitting? then
        At(v.(me := v.me.(result := ChainResult(Fallback, ReasonText(v.me.plan.reason), None))), ChainDone)
      else v
    case UseForeign(name, reason) =>
      if v.me.pc.Submitting? then At(v.(me := v.me.(result := ChainResult(Foreign(name), reason, None))), ChainDone)
      else v
    case UseSubtensor(inputs) =>
      if v.me.pc.Submitting? then
        match Decide(inputs, v.me.plan.reason, AllWeightsZero(v.me.plan))
        case Settle(mode, reason) =>
          WriteFilesThen(v.(me := v.me.(result := ChainResult(mode, reason, Some(e)))),
                         Mine(v).(receipt := Some(Receipt(e, mode, reason))), ChainDone)
        case GoLive(reason) =>
          WriteFilesThen(v.(me := v.me.(inputs := inputs, result := ChainResult(Submitted, reason, Some(e)))),
                         Mine(v).(attempt := Some(Attempt(e, true, Started, None))), AttemptOpen)
      else v
    case SetWeights(accepted) =>
      if v.me.pc.AttemptOpen? then
        At(v.(hist := v.hist.(calls := v.hist.calls + [Call(e, v.me.inputs, v.me.plan)])),
           if accepted then Accepted else Unwinding)
      else v
    case WriteReceipt =>
      if v.me.pc.Accepted? then
        WriteFilesThen(v, Mine(v).(receipt := Some(Receipt(e, Submitted, v.me.result.reason))), ReceiptDone)
      else v
    case CompleteAttempt =>
      if v.me.pc.ReceiptDone? then
        WriteFilesThen(v, Mine(v).(attempt := Some(Attempt(e, true, Completed, Some(e)))), AttemptDone)
      else v
    case ReturnFromChain => if v.me.pc.AttemptDone? then At(v, ChainDone) else v
    case Handle =>
      // `except BaseException`: anywhere after the attempt file exists and before the return.
      if v.me.pc.AttemptOpen? || v.me.pc.Accepted? || v.me.pc.ReceiptDone? || v.me.pc.AttemptDone?
      then At(v, Unwinding)
      else v
    case MarkAmbiguous =>
      if v.me.pc.Unwinding? then
        WriteFilesThen(v, Mine(v).(attempt := Some(Attempt(e, true, Ambiguous, None))), Exiting)
      else v
    case _ => v
  }

  /** `run_epoch` after the chain call: one artifact per step, in write order. */
  function ActPersist(cfg: Config, v: View): View {
    var e, me := v.me.epoch, v.me;
    match me.pc
    case ChainDone => WriteFilesThen(v, WithSnapshot(Mine(v), me.plan), SnapshotDone)
    case SnapshotDone => WriteFilesThen(v, WithPanel(Mine(v), e), PanelDone)
    case PanelDone => WriteFilesThen(v, WithWeights(Mine(v), e, me.setup.quota, me.plan, me.result), WeightsDone)
    case WeightsDone =>
      if !Recoverable(me.result.mode) then At(v, Abandoning)
      else
        (match BuildMarker(cfg.sha, Mine(v), e, me.result)
         case Err(_) => At(v, Exiting)
         case Ok(m) => WriteFilesThen(v, Mine(v).(marker := Some(m)), MarkerDone))
    case MarkerDone =>
      // The marker is read back before the rolling average may be published.
      if Verify(cfg.sha, Mine(v), e).Err? then At(v, Exiting)
      else At(v.(disk := v.disk.(rolling := me.plan.ema)), RollingDone)
    case _ => v
  }

  function Committing(v: View, next: RuntimeState): View {
    WriteStateThen(v.(hist := v.hist.(commits := v.hist.commits + [v.me.epoch])), next, Exiting)
  }

  function ActCommit(cfg: Config, v: View): View {
    match v.me.pc
    case RollingDone =>
      (match TransitionTo(cfg.sha, v.disk, v.me.epoch, Committed)
       case CommitTo(c) => At(v.(disk := v.disk.(rolling := c.rolling)), CommitRollingDone)
       case _ => At(v, Exiting))
    case CommitRollingDone =>
      (match TransitionTo(cfg.sha, v.disk, v.me.epoch, Committed)
       case CommitTo(c) => Committing(v, c.next)
       case _ => At(v, Exiting))
    case _ => v
  }

  function ActRecover(cfg: Config, v: View): View {
    match v.me.pc
    case Recovering =>
      (match Recover(cfg.sha, v.disk)
       case Err(_) => At(v, Outside)
       case Ok(c) =>
         if v.disk.state.active.Some? then
           At(v.(disk := v.disk.(rolling := c.rolling), me := v.me.(epoch := v.disk.state.active.value)),
              RecoverRollingDone)
         else v)
    case RecoverRollingDone =>
      (match Recover(cfg.sha, v.disk)
       case Err(_) => At(v, Outside)
       case Ok(c) => At(Committing(v, c.next), Outside))
    case _ => v
  }

  /** The text of `EpochCompletionError`. */
  function IncompleteText(result: ChainResult): string {
    "epoch chain outcome is not complete: " + ModeName(result.mode) + ":"
    + (if result.reason == "" then "unknown" else result.reason)
  }

  function ActAbandon(v: View): View {
    if v.me.pc.Abandoning? then
      match FailWeights(v.disk, v.me.epoch, IncompleteText(v.me.result))
      case Err(_) => At(v, Exiting)
      case Ok(next) => WriteStateThen(v, next, Exiting)
    else v
  }

  /** What `__exit__` records: the text of the exception unwinding, if there is one. */
  function ExitText(detail: Option<string>): string {
    match detail case None => "evaluation_exited_without_result" case Some(text) => text
  }

  /** `__exit__`: an epoch still evaluating is failed, then the lock is released. */
  function ActExit(v: View, detail: Option<string>): View {
    if v.me.pc.Exiting? then
      match FailEvaluation(v.disk, v.me.epoch, ExitText(detail))
      case Err(_) => At(v, Outside)
      case Ok(next) => WriteStateThen(v, next, Exiting)
    else v
  }

  /** An exception unwinds to `__exit__`, or straight out of the lock from `__enter__`, `__exit__` and recovery. */
  function ActRaise(v: View): View {
    if v.me.pc.Outside? then v
    else if v.me.pc.Deciding? || v.me.pc.Advancing? || v.me.pc.Exiting?
            || v.me.pc.Recovering? || v.me.pc.RecoverRollingDone?
    then At(v, Outside)
    else At(v, Exiting)
  }

  function Act(cfg: Config, v: View, a: Action): View {
    match a
    case BeginTick => ActBegin(v)
    case Query => ActQuery(cfg, v)
    case Evaluate(setup) => ActEvaluate(cfg, v, setup)
    case Append(outcome) => ActAppend(v, outcome)
    case Score => ActScore(cfg, v)
    case Persist => ActPersist(cfg, v)
    case CommitEpoch => ActCommit(cfg, v)
    case Abandon => ActAbandon(v)
    case Raise => ActRaise(v)
    case Exit(detail) => ActExit(v, detail)
    case RecoverReceipt => ActRecover(cfg, v)
    case _ => ActChain(v, a)
  }

  /******* All processes *******/

  datatype Event = Acquire(pid: Pid, recovering: bool) | Do(pid: Pid, action: Action) | Crash(pid: Pid)

  function LocalOf(w: World, p: Pid): Local {
    if p in w.procs then w.procs[p] else BLANK
  }

  function Unlock(w: World, p: Pid): Option<Pid> {
    if w.lock == Some(p) then None else w.lock
  }

  /** Every event may occur in every world; one that does not apply changes nothing. */
  function Step(cfg: Config, w: World, ev: Event): World {
    var p, me := ev.pid, LocalOf(w, ev.pid);
    match ev
    case Acquire(_, recovering) =>
      if me.pc.Outside? && w.lock.None? then
        w.(lock := Some(p), procs := w.procs[p := BLANK.(pc := if recovering then Recovering else Deciding)])
      else w
    case Do(_, action) =>
      if me.pc.Outside? then w
      else
        var v := Act(cfg, View(w.disk, w.hist, me), action);
        World(v.disk, if v.me.pc.Outside? then Unlock(w, p) else w.lock,
              w.procs[p := if v.me.pc.Outside? then BLANK else v.me], v.hist)
    case Crash(_) => w.(lock := Unlock(w, p), procs := w.procs[p := BLANK])
  }

  function Run(cfg: Config, w: World, events: seq<Event>): World {
    if events == [] then w else Step(cfg, Run(cfg, w, events[..|events| - 1]), events[|events| - 1])
  }
}
