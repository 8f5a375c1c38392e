/** How a tick starts from whatever the one before it left, and what one that fails leaves. */
module TickRestarts {
  import opened Common
  import opened Scoring
  import opened Replay
  import opened Chain
  import opened EpochFiles
  import opened RuntimeStates
  import opened TickMachine
  import opened TickInvariant
  import opened TickTheorems
  import opened TickProgress

  /******* Entering *******/

  function Waiting(w: World): View {
    View(w.disk, w.hist, BLANK.(pc := Deciding))
  }

  /** `StartTick` in the eyes of the process that enters. */
  lemma StartTickView(cfg: Config, w: World, p: Pid)
    requires Inv(cfg, w) && w.lock.None?
    ensures Begin(w.disk).Refuse? ==>
      ViewOf(StartTick(cfg, w, p), p) == View(w.disk, w.hist, BLANK) && StartTick(cfg, w, p).lock.None?
    ensures !Begin(w.disk).Refuse? ==>
      ViewOf(StartTick(cfg, w, p), p) == ActBegin(ActBegin(Waiting(w))) && StartTick(cfg, w, p).lock == Some(p)
  {
    var w1 := Step(cfg, w, Acquire(p, false));
    assert ViewOf(w1, p) == Waiting(w);
    StepKeeps(cfg, w, Acquire(p, false));
    var w2 := Step(cfg, w1, Do(p, BeginTick));
    DoStep(cfg, w1, p, BeginTick);
    if !Begin(w.disk).Refuse? {
      BeginActs(Waiting(w));
      assert ViewOf(w2, p) == ActBegin(Waiting(w));
      BeginActs(ViewOf(w2, p));
    }
  }

  /** A process that has just entered epoch e, by itself. */
  ghost predicate Enters(w: World, p: Pid, e: int) {
    LocalOf(w, p) == BLANK.(pc := Entered, epoch := e) && w.lock == Some(p)
  }

  /** The state of a freshly allocated epoch: the next id, the first attempt. */
  function Fresh(s: RuntimeState): RuntimeState {
    RuntimeState(s.version, s.nextEpochId + 1, Some(s.nextEpochId), Some(Allocated), 1,
                 s.lastCompleted, s.lastFailed, s.lastError, s.lastReceipt, s.lastSuccess)
  }

  /** After a finished epoch, or before the first one, a tick allocates the next. */
  lemma FinishedEpochIsSucceeded(cfg: Config, w: World, p: Pid)
    requires Reachable(cfg, w) && w.lock.None?
    requires w.disk.state.phase.None? || w.disk.state.phase == Some(Committed)
    ensures var w', e := StartTick(cfg, w, p), w.disk.state.nextEpochId;
      && Enters(w', p, e) && w'.disk == w.disk.(state := Fresh(w.disk.state))
      && w'.hist == w.hist.(allocs := w.hist.allocs + [e])
  {
    ReachableInv(cfg, w);
    StartTickView(cfg, w, p);
  }

  /** An epoch that stopped before its evaluation is retried, under the same id. */
  lemma UnevaluatedEpochIsRetried(cfg: Config, w: World, p: Pid)
    requires Reachable(cfg, w) && w.lock.None?
    requires w.disk.state.phase == Some(Allocated) || w.disk.state.phase == Some(Querying)
    ensures var w', s := StartTick(cfg, w, p), w.disk.state;
      && s.active.Some? && Enters(w', p, s.active.value)
      && w'.disk == w.disk.(state := s.(phase := Some(Allocated), attempt := s.attempt + 1))
      && w'.hist == w.hist
  {
    ReachableInv(cfg, w);
    StartTickView(cfg, w, p);
  }

  /** The given epoch is recorded as failed, and the next one is entered. */
  ghost predicate Succeeds(cfg: Config, w: World, p: Pid, error: string) {
    var w', s := StartTick(cfg, w, p), w.disk.state;
    && Enters(w', p, s.nextEpochId)
    && w'.disk == w.disk.(state := Fresh(s).(lastFailed := s.active, lastError := Some(error)))
    && w'.hist == w.hist.(allocs := w.hist.allocs + [s.nextEpochId])
  }

  /** One that stopped while evaluating is failed and succeeded: its outcomes are never scored. */
  lemma InterruptedEvaluationIsFailed(cfg: Config, w: World, p: Pid)
    requires Reachable(cfg, w) && w.lock.None? && w.disk.state.phase == Some(Evaluating)
    ensures Succeeds(cfg, w, p, "interrupted_during_evaluation")
  {
    ReachableInv(cfg, w);
    StartTickView(cfg, w, p);
  }

  /** The pending epoch left a receipt that says nothing was submitted, and no marker. */
  ghost predicate Discardable(d: Disk, mode: Mode) {
    && d.state.active.Some?
    && FilesOf(d, d.state.active.value).marker.None?
    && FilesOf(d, d.state.active.value).receipt.Some?
    && FilesOf(d, d.state.active.value).receipt.value.mode == mode
    && mode in {DryRun, Skipped, Error}
  }

  lemma DiscardDecides(cfg: Config, d: Disk, h: Hist, mode: Mode)
    requires DiskInv(cfg, d, h) && d.state.phase == Some(WeightsSubmitting) && Discardable(d, mode)
    ensures Begin(d) == FailStale(ReleaseEpoch(d.state, ReceiptTag(mode)))
  {
  }

  lemma StaleActs(v: View, error: string)
    requires v.me.pc.Deciding? && Begin(v.disk) == FailStale(ReleaseEpoch(v.disk.state, error))
    ensures var e := v.disk.state.nextEpochId;
      ActBegin(ActBegin(v))
      == View(v.disk.(state := Fresh(v.disk.state).(lastFailed := v.disk.state.active, lastError := Some(error))),
              v.hist.(allocs := v.hist.allocs + [e]), v.me.(pc := Entered, epoch := e))
  {
  }

  /** One that stopped while submitting, with such a receipt, is failed and succeeded too. */
  lemma DiscardableReceiptIsFailed(cfg: Config, w: World, p: Pid, mode: Mode)
    requires Reachable(cfg, w) && w.lock.None? && w.disk.state.phase == Some(WeightsSubmitting)
    requires Discardable(w.disk, mode)
    ensures var name := if mode == DryRun then "dry_run" else if mode == Skipped then "skipped" else "error";
      && name == ModeName(mode)
      && Succeeds(cfg, w, p, "interrupted_after_" + name + "_receipt_before_completion")
  {
    ReachableInv(cfg, w);
    DiscardDecides(cfg, w.disk, w.hist, mode);
    StaleActs(Waiting(w), ReceiptTag(mode));
    StartTickView(cfg, w, p);
  }

  /** Any other that stopped while submitting keeps every tick out. */
  lemma PendingSubmissionIsRefused(cfg: Config, w: World, p: Pid)
    requires Reachable(cfg, w) && w.lock.None? && w.disk.state.phase == Some(WeightsSubmitting)
    requires forall mode :: !Discardable(w.disk, mode)
    ensures var w' := StartTick(cfg, w, p);
      w'.disk == w.disk && w'.hist == w.hist && w'.lock.None? && LocalOf(w', p) == BLANK
  {
    ReachableInv(cfg, w);
    StartTickView(cfg, w, p);
    var f := FilesOf(w.disk, w.disk.state.active.value);
    if f.receipt.Some? && f.marker.None? {
      assert !Discardable(w.disk, f.receipt.value.mode);
    }
  }

  /******* Crashes *******/

  /** A receipt of this process's epoch, not yet followed by a marker, that a later tick may discard. */
  predicate Discarding(l: Local) {
    HasResult(l.pc) && !HasMarker(l.pc) && l.result.mode in {DryRun, Skipped, Error}
  }

  lemma CrashFrees(cfg: Config, w: World, p: Pid)
    requires Inv(cfg, w) && !LocalOf(w, p).pc.Outside?
    ensures var w' := Step(cfg, w, Crash(p)); w'.disk == w.disk && w'.hist == w.hist && w'.lock.None?
  {
  }

  lemma ReachableStep(cfg: Config, w: World, ev: Event)
    requires Reachable(cfg, w)
    ensures Reachable(cfg, Step(cfg, w, ev))
  {
    var events: seq<Event> :| w == Run(cfg, START, events);
    var longer := events + [ev];
    assert longer[..|longer| - 1] == events;
    assert Step(cfg, w, ev) == Run(cfg, START, longer);
  }

  /** What the files of a publishing process look like to a later tick. */
  lemma PublishedFiles(cfg: Config, l: Local)
    requires Publishing(l.pc) && !HasMarker(l.pc) && (Live(l.pc) ==> l.result.mode.Submitted?)
    ensures var f := FilesAt(cfg, l);
      && f.marker.None?
      && (Discarding(l) ==> f.receipt.Some? && f.receipt.value.mode == l.result.mode)
      && (!Discarding(l) ==> f.receipt.Some? ==> f.receipt.value.mode !in {DryRun, Skipped, Error})
      && (f.attempt.Some? && !f.attempt.value.status.Completed? ==> Live(l.pc))
  {
  }

  lemma MarkedFiles(cfg: Config, l: Local)
    requires HasMarker(l.pc) && CarriesReceipt(l.epoch, l.result) && Recoverable(l.result.mode)
    ensures var f := FilesAt(cfg, l);
      f.marker.Some? && (f.attempt.Some? ==> f.attempt.value.status.Completed?)
  {
    BuiltMarkerVerifies(cfg.sha, l.epoch, l.setup.quota, l.plan, l.result);
  }

  /** What later decisions read: whether the epoch's attempt is settled, its marker, its receipt. */
  ghost predicate LooksPending(f: Files, unsettled: bool, marked: bool, receipt: Option<Mode>) {
    && (f.attempt.Some? && !f.attempt.value.status.Completed? ==> unsettled)
    && (f.marker.Some? <==> marked)
    && (receipt.Some? ==> f.receipt.Some? && f.receipt.value.mode == receipt.value)
    && (receipt.None? && !marked ==> f.receipt.Some? ==> f.receipt.value.mode !in {DryRun, Skipped, Error})
  }

  lemma PendingLooks(cfg: Config, w: World, p: Pid)
    requires Inv(cfg, w) && (Publishing(LocalOf(w, p).pc) || LocalOf(w, p).pc.Unwinding?)
    ensures var me := LocalOf(w, p);
      && Owns(w.disk.state, me.epoch, WeightsSubmitting)
      && LooksPending(FilesOf(w.disk, me.epoch), Live(me.pc) || me.pc.Unwinding?, HasMarker(me.pc),
                      if Discarding(me) then Some(me.result.mode) else None)
  {
    var me := LocalOf(w, p);
    if HasMarker(me.pc) {
      MarkedFiles(cfg, me);
    } else if Publishing(me.pc) {
      PublishedFiles(cfg, me);
    }
  }

  /**
   A process dies inside a tick, and another starts one. It retries the epoch if its evaluation had not
   begun, fails it and takes the next if it was evaluating or had a receipt without a submission, and is
   turned away otherwise.
   */
  lemma CrashThenTick(cfg: Config, w: World, p: Pid, q: Pid)
    requires Reachable(cfg, w) && InTick(LocalOf(w, p).pc)
    ensures var me, w1 := LocalOf(w, p), Step(cfg, w, Crash(p));
      var w', s := StartTick(cfg, w1, q), w.disk.state;
      if me.pc.Entered? || me.pc.Polled? then
        && Enters(w', q, me.epoch) && w'.hist == w.hist
        && w'.disk == w.disk.(state := s.(phase := Some(Allocated), attempt := s.attempt + 1))
      else if me.pc.Scoring? then
        s.active == Some(me.epoch) && Succeeds(cfg, w1, q, "interrupted_during_evaluation")
      else if Discarding(me) then
        && s.active == Some(me.epoch)
        && Succeeds(cfg, w1, q, "interrupted_after_" + ModeName(me.result.mode) + "_receipt_before_completion")
      else w'.disk == w.disk && w'.hist == w.hist && w'.lock.None? && LocalOf(w', q) == BLANK
  {
    var me, w1 := LocalOf(w, p), Step(cfg, w, Crash(p));
    ReachableInv(cfg, w);
    ReachableStep(cfg, w, Crash(p));
    CrashFrees(cfg, w, p);
    if me.pc.Entered? || me.pc.Polled? {
      UnevaluatedEpochIsRetried(cfg, w1, q);
    } else if me.pc.Scoring? {
      InterruptedEvaluationIsFailed(cfg, w1, q);
    } else {
      PendingLooks(cfg, w, p);
      if Discarding(me) {
        DiscardableReceiptIsFailed(cfg, w1, q, me.result.mode);
      } else {
        PendingSubmissionIsRefused(cfg, w1, q);
      }
    }
  }

  /**
   And recovery will not help either exactly when it died between entering weights_submitting and the
   marker without such a receipt.
   */
  lemma CrashIsStuckIff(cfg: Config, w: World, p: Pid)
    requires Reachable(cfg, w) && InTick(LocalOf(w, p).pc)
    ensures var me := LocalOf(w, p);
      Stuck(cfg.sha, Step(cfg, w, Crash(p)).disk) <==>
      me.pc.Unwinding? || (Publishing(me.pc) && !HasMarker(me.pc) && !Discarding(me))
  {
    ReachableInv(cfg, w);
    CrashFrees(cfg, w, p);
    StuckIff(cfg, w);
    if Publishing(LocalOf(w, p).pc) || LocalOf(w, p).pc.Unwinding? {
      PendingLooks(cfg, w, p);
    } else {
      HolderOwnsTheActiveEpoch(cfg, w, p);
    }
  }

  /******* Ticks that fail *******/

  lemma RaiseActs(cfg: Config, v: View)
    requires InTick(v.me.pc)
    ensures Act(cfg, v, Raise) == At(v, Exiting)
  {
  }

  /** `__exit__` fails the epoch if it is still evaluating; once it is not, it leaves. */
  lemma ExitActs(cfg: Config, v: View, detail: Option<string>)
    requires v.me.pc.Exiting? && Validates(v.disk.state)
    ensures Act(cfg, v, Exit(detail))
         == if Owns(v.disk.state, v.me.epoch, Evaluating)
            then v.(disk := v.disk.(state := GivenUp(v.disk.state, ExitText(detail)))) else At(v, Outside)
  {
  }

  /**
   Leaving the tick early fails an epoch still evaluating, with the exception's text if there is one, and
   nothing else: any other epoch stays as it is for the next tick to decide about.
   */
  lemma RaisingTick(cfg: Config, w: World, p: Pid, detail: Option<string>)
    requires Reachable(cfg, w) && InTick(LocalOf(w, p).pc)
    ensures var exit := Do(p, Exit(detail));
      var w' := Step(cfg, Step(cfg, Step(cfg, w, Do(p, Raise)), exit), exit);
      var text := if detail.None? then "evaluation_exited_without_result" else detail.value;
      && w'.hist == w.hist && w'.lock.None? && LocalOf(w', p) == BLANK
      && w'.disk == if LocalOf(w, p).pc.Scoring? then w.disk.(state := GivenUp(w.disk.state, text)) else w.disk
  {
    ReachableInv(cfg, w);
    HolderOwnsTheActiveEpoch(cfg, w, p);
    RaiseActs(cfg, ViewOf(w, p));
    InsideStep(cfg, w, p, Raise);
    LeavesByExit(cfg, Step(cfg, w, Do(p, Raise)), p, detail);
    assert LocalOf(w, p).pc.Scoring? <==> Owns(w.disk.state, LocalOf(w, p).epoch, Evaluating);
  }

  lemma LeavesByExit(cfg: Config, w: World, p: Pid, detail: Option<string>)
    requires w.lock == Some(p) && LocalOf(w, p).pc.Exiting? && Validates(w.disk.state)
    ensures var w' := Step(cfg, Step(cfg, w, Do(p, Exit(detail))), Do(p, Exit(detail)));
      && w'.hist == w.hist && w'.lock.None? && LocalOf(w', p) == BLANK
      && w'.disk == if Owns(w.disk.state, LocalOf(w, p).epoch, Evaluating)
                    then w.disk.(state := GivenUp(w.disk.state, ExitText(detail))) else w.disk
  {
    var w1 := Step(cfg, w, Do(p, Exit(detail)));
    ExitActs(cfg, ViewOf(w, p), detail);
    InsideStep(cfg, w, p, Exit(detail));
    if Owns(w.disk.state, LocalOf(w, p).epoch, Evaluating) {
      ExitActs(cfg, ViewOf(w1, p), detail);
      InsideStep(cfg, w1, p, Exit(detail));
    } else {
      assert LocalOf(w1, p).pc.Outside?;
    }
  }

  lemma UnsettledIsStuck(sha: Sha, d: Disk, e: int)
    requires Validates(d.state) && Owns(d.state, e, WeightsSubmitting)
    requires FilesOf(d, e).attempt == Some(Attempt(e, true, Ambiguous, None))
    ensures Stuck(sha, d)
  {
  }

  lemma FailureActs(cfg: Config, v: View, rejected: bool)
    requires if rejected then v.me.pc.AttemptOpen? else Live(v.me.pc)
    ensures var f := Mine(v).(attempt := Some(Attempt(v.me.epoch, true, Ambiguous, None)));
      RunActs(cfg, v, [if rejected then SetWeights(false) else Handle, MarkAmbiguous])
      == WriteFilesThen(if rejected then
                          v.(hist := v.hist.(calls := v.hist.calls + [Call(v.me.epoch, v.me.inputs, v.me.plan)]))
                        else v, f, Exiting)
  {
    var first := if rejected then SetWeights(false) else Handle;
    RunActsFirst(cfg, v, first, [MarkAmbiguous]);
    RunActsFirst(cfg, Act(cfg, v, first), MarkAmbiguous, []);
    assert [first] + [MarkAmbiguous] == [first, MarkAmbiguous] && [MarkAmbiguous] + [] == [MarkAmbiguous];
  }

  lemma FailureLeaves(cfg: Config, v: View, rejected: bool)
    requires if rejected then v.me.pc.AttemptOpen? else Live(v.me.pc)
    requires Validates(v.disk.state) && Owns(v.disk.state, v.me.epoch, WeightsSubmitting)
    ensures var v' := RunActs(cfg, v, [if rejected then SetWeights(false) else Handle, MarkAmbiguous]);
      && Stuck(cfg.sha, v'.disk) && v'.me.pc.Exiting?
      && v'.disk == WithFiles(v.disk, v.me.epoch,
                              Mine(v).(attempt := Some(Attempt(v.me.epoch, true, Ambiguous, None))))
      && v'.hist == (if rejected then v.hist.(calls := v.hist.calls + [Call(v.me.epoch, v.me.inputs, v.me.plan)])
                     else v.hist)
  {
    var v' := RunActs(cfg, v, [if rejected then SetWeights(false) else Handle, MarkAmbiguous]);
    FailureActs(cfg, v, rejected);
    assert FilesOf(v'.disk, v.me.epoch).attempt == Some(Attempt(v.me.epoch, true, Ambiguous, None));
    UnsettledIsStuck(cfg.sha, v'.disk, v.me.epoch);
  }

  /**
   A submission that is rejected, or that raises anywhere between opening the attempt and returning, ends
   with an ambiguous attempt and everything else as it was, and from there nothing moves by itself.
   */
  lemma FailedSubmissionIsStuck(cfg: Config, w: World, p: Pid, events: seq<Event>, rejected: bool)
    requires Reachable(cfg, w) && if rejected then LocalOf(w, p).pc.AttemptOpen? else Live(LocalOf(w, p).pc)
    requires Own(p, events) == Doing(p, [if rejected then SetWeights(false) else Handle, MarkAmbiguous])
    ensures var me, w' := LocalOf(w, p), Run(cfg, w, events);
      var f := FilesOf(w.disk, me.epoch).(attempt := Some(Attempt(me.epoch, true, Ambiguous, None)));
      && Stuck(cfg.sha, w'.disk) && w'.disk == WithFiles(w.disk, me.epoch, f)
      && w'.hist == (if rejected then w.hist.(calls := w.hist.calls + [Call(me.epoch, me.inputs, me.plan)])
                     else w.hist)
      && LocalOf(w', p).pc.Exiting?
  {
    ReachableInv(cfg, w);
    var actions := [if rejected then SetWeights(false) else Handle, MarkAmbiguous];
    FailureLeaves(cfg, ViewOf(w, p), rejected);
    Undisturbed(cfg, w, p, events, actions);
  }

  /** The files of an epoch whose chain client reported something the validator cannot complete. */
  function Incomplete(e: int, quota: nat, plan: WeightsPlan, mode: Mode, reason: string): Files {
    Files(None, None, Some(plan.ema), Some(Panel(e)), Some(Weights(e, quota, plan, mode, reason)), None)
  }

  lemma IncompleteActs(cfg: Config, v: View)
    requires v.me.pc.WeightsDone? && v.me.result.mode.Foreign? && Mine(v).attempt.None?
    requires Validates(v.disk.state) && Owns(v.disk.state, v.me.epoch, WeightsSubmitting)
    ensures Act(cfg, v, Persist) == At(v, Abandoning)
    ensures Act(cfg, At(v, Abandoning), Abandon)
         == At(v.(disk := v.disk.(state := GivenUp(v.disk.state, IncompleteText(v.me.result)))), Exiting)
  {
  }

  lemma IncompleteRuns(cfg: Config, v: View)
    requires v.me.pc.WeightsDone? && v.me.result.mode.Foreign? && Mine(v).attempt.None?
    requires Validates(v.disk.state) && Owns(v.disk.state, v.me.epoch, WeightsSubmitting)
    ensures RunActs(cfg, v, [Persist, Abandon])
         == At(v.(disk := v.disk.(state := GivenUp(v.disk.state, IncompleteText(v.me.result)))), Exiting)
  {
    IncompleteActs(cfg, v);
    RunActsFirst(cfg, v, Persist, [Abandon]);
    RunActsFirst(cfg, At(v, Abandoning), Abandon, []);
    assert [Persist] + [Abandon] == [Persist, Abandon] && [Abandon] + [] == [Abandon];
  }

  lemma ForeignActs(cfg: Config, v: View, name: string, reason: string)
    requires v.me.pc.Submitting? && Mine(v) == NO_FILES
    requires Validates(v.disk.state) && Owns(v.disk.state, v.me.epoch, WeightsSubmitting)
    ensures var v' := RunActs(cfg, v, [UseForeign(name, reason)] + ([Persist, Persist, Persist] + [Persist, Abandon]));
      var result := ChainResult(Foreign(name), reason, None);
      && v'.disk == WithFiles(v.disk, v.me.epoch,
                              Incomplete(v.me.epoch, v.me.setup.quota, v.me.plan, Foreign(name), reason))
                    .(state := GivenUp(v.disk.state, IncompleteText(result)))
      && v'.hist == v.hist && v'.me.pc.Exiting?
  {
    var result := ChainResult(Foreign(name), reason, None);
    var v1 := At(v.(me := v.me.(result := result)), ChainDone);
    RunActsFirst(cfg, v, UseForeign(name, reason), [Persist, Persist, Persist] + [Persist, Abandon]);
    RunActsConcat(cfg, v1, [Persist, Persist, Persist], [Persist, Abandon]);
    ArtifactsRun(cfg, v1);
    var f := Incomplete(v.me.epoch, v.me.setup.quota, v.me.plan, Foreign(name), reason);
    var v2 := WriteFilesThen(v1, f, WeightsDone);
    WriteTwice(v1, f, WeightsDone, f, WeightsDone);
    IncompleteRuns(cfg, v2);
  }

  lemma IncompleteSays(name: string, reason: string)
    ensures IncompleteText(ChainResult(Foreign(name), reason, None))
         == "epoch chain outcome is not complete: " + name + ":" + (if reason == "" then "unknown" else reason)
  {
  }

  /**
   An outcome no epoch can complete with: its artifacts are kept, no marker is written, the average is not
   published, and the epoch is given up with the outcome's name and reason.
   */
  lemma ForeignOutcomeIsGivenUp(cfg: Config, w: World, p: Pid, events: seq<Event>, name: string, reason: string)
    requires Reachable(cfg, w) && LocalOf(w, p).pc.Submitting?
    requires Own(p, events)
          == Doing(p, [UseForeign(name, reason)] + ([Persist, Persist, Persist] + [Persist, Abandon]))
    ensures var me, w' := LocalOf(w, p), Run(cfg, w, events);
      var text := "epoch chain outcome is not complete: " + name + ":" + (if reason == "" then "unknown" else reason);
      && w'.disk == Disk(GivenUp(w.disk.state, text),
                         w.disk.epochs[me.epoch :=
                           Incomplete(me.epoch, me.setup.quota, me.plan, Foreign(name), reason)],
                         w.disk.rolling, w.disk.rows)
      && w'.hist == w.hist && LocalOf(w', p).pc.Exiting?
  {
    ReachableInv(cfg, w);
    ForeignActs(cfg, ViewOf(w, p), name, reason);
    IncompleteSays(name, reason);
    Undisturbed(cfg, w, p, events, [UseForeign(name, reason)] + ([Persist, Persist, Persist] + [Persist, Abandon]));
  }

  /******* Tick after tick *******/

  lemma {:induction false} OwnDoing(p: Pid, actions: seq<Action>)
    ensures Own(p, Doing(p, actions)) == Doing(p, actions)
  {
    if actions != [] {
      var n := |actions| - 1;
      OwnDoing(p, actions[..n]);
      assert Doing(p, actions)[..n] == Doing(p, actions[..n]);
      assert Doing(p, actions[..n]) + [Do(p, actions[n])] == Doing(p, actions);
    }
  }

  lemma {:induction false} ReachableRun(cfg: Config, w: World, events: seq<Event>)
    requires Reachable(cfg, w)
    ensures Reachable(cfg, Run(cfg, w, events))
  {
    if events != [] {
      var n := |events| - 1;
      ReachableRun(cfg, w, events[..n]);
      ReachableStep(cfg, Run(cfg, w, events[..n]), events[n]);
    }
  }

  /** One tick that measures and publishes nothing, by a process that has entered. */
  ghost function IdleTick(cfg: Config, w: World, p: Pid, setup: Setup): World {
    Step(cfg, Run(cfg, w, Doing(p, TickScript(cfg, w.disk.rolling, true, setup, [], NullClient))), Do(p, Exit(None)))
  }

  lemma IdleTickCommits(cfg: Config, w: World, p: Pid, setup: Setup)
    requires Reachable(cfg, w) && LocalOf(w, p).pc.Entered?
    ensures var w' := IdleTick(cfg, w, p, setup);
      && Reachable(cfg, w') && w'.lock.None? && w'.disk.state.phase == Some(Committed)
      && w'.hist.commits == w.hist.commits + [LocalOf(w, p).epoch]
  {
    var script := TickScript(cfg, w.disk.rolling, true, setup, [], NullClient);
    OwnDoing(p, script);
    UninterruptedTickCommits(cfg, w, p, Doing(p, script), true, setup, [], NullClient);
    ReachableRun(cfg, w, Doing(p, script));
    ReachableStep(cfg, Run(cfg, w, Doing(p, script)), Do(p, Exit(None)));
  }

  /** Recover if a marker is pending, enter, and take such a tick. */
  ghost function NextTick(cfg: Config, w: World, p: Pid, setup: Setup): World {
    IdleTick(cfg, StartTick(cfg, if Sealed(w.disk) then RecoverAt(cfg, w, p) else w, p), p, setup)
  }

  lemma ThreeSteps(cfg: Config, w: World, a: Event, b: Event, c: Event)
    requires Reachable(cfg, w)
    ensures var w' := Step(cfg, Step(cfg, Step(cfg, w, a), b), c);
      Reachable(cfg, w') && w.hist.commits <= w'.hist.commits
  {
    var events := [a, b, c];
    assert events[..2] == [a, b] && [a, b][..1] == [a] && [a][..0] == [];
    assert Run(cfg, w, [a]) == Step(cfg, w, a);
    assert Run(cfg, w, [a, b]) == Step(cfg, Step(cfg, w, a), b);
    ReachableInv(cfg, w);
    ReachableRun(cfg, w, events);
    RunKeeps(cfg, w, events);
  }

  /**
   No reachable world with a free lock is beyond a further commit, unless an operator is needed: one tick
   later there is one, and the same can be said again.
   */
  lemma TicksGoOn(cfg: Config, w: World, p: Pid, setup: Setup)
    requires Reachable(cfg, w) && w.lock.None? && !Stuck(cfg.sha, w.disk)
    ensures var w' := NextTick(cfg, w, p, setup);
      && Reachable(cfg, w') && w'.lock.None? && !Stuck(cfg.sha, w'.disk)
      && w.hist.commits < w'.hist.commits
  {
    var w0 := if Sealed(w.disk) then RecoverAt(cfg, w, p) else w;
    UnstuckMovesOn(cfg, w, p);
    ThreeSteps(cfg, w, Acquire(p, true), Do(p, RecoverReceipt), Do(p, RecoverReceipt));
    ThreeSteps(cfg, w0, Acquire(p, false), Do(p, BeginTick), Do(p, BeginTick));
    IdleTickCommits(cfg, StartTick(cfg, w0, p), p, setup);
    StuckIff(cfg, NextTick(cfg, w, p, setup));
  }

  /******* What the state says about receipts *******/

  ghost predicate SameReceipts(s: RuntimeState, s': RuntimeState) {
    s'.lastReceipt == s.lastReceipt && s'.lastSuccess == s.lastSuccess && s'.lastCompleted == s.lastCompleted
  }

  /** The state records epoch e as completed, with the receipt its marker attests. */
  ghost predicate Records(s: RuntimeState, s': RuntimeState, e: int, f: Files) {
    && f.marker.Some? && f.snapshot.Some?
    && var receipt := Completion(f.marker.value.mode, f.marker.value.reason, f.snapshot.value);
      && s'.lastCompleted == Some(e) && s'.lastReceipt == Some(receipt) && s'.lastError.None?
      && s'.lastSuccess == if receipt.mode in {DryRun, Submitted} then Some(receipt) else s.lastSuccess
  }

  predicate LastWrite(pc: Pc, a: Action) {
    (pc.CommitRollingDone? && a.CommitEpoch?) || (pc.RecoverRollingDone? && a.RecoverReceipt?)
  }

  lemma ChainKeepsReceipts(v: View, a: Action)
    ensures ActChain(v, a).disk.state == v.disk.state && ActChain(v, a).hist.commits == v.hist.commits
  {
  }

  lemma EvaluationKeepsReceipts(cfg: Config, v: View, a: Action)
    requires a.Query? || a.Evaluate? || a.Append? || a.Score?
    ensures SameReceipts(v.disk.state, Act(cfg, v, a).disk.state) && Act(cfg, v, a).hist.commits == v.hist.commits
  {
  }

  lemma LeavingKeepsReceipts(cfg: Config, v: View, a: Action)
    requires a.Abandon? || a.Raise? || a.Exit?
    ensures SameReceipts(v.disk.state, Act(cfg, v, a).disk.state) && Act(cfg, v, a).hist.commits == v.hist.commits
  {
  }

  lemma BeginKeepsReceipts(v: View)
    ensures SameReceipts(v.disk.state, ActBegin(v).disk.state) && ActBegin(v).hist.commits == v.hist.commits
  {
  }

  lemma FinishKeepsReceipts(cfg: Config, v: View)
    ensures ActPersist(cfg, v).disk.state == v.disk.state && ActPersist(cfg, v).hist == v.hist
    ensures !v.me.pc.CommitRollingDone? ==>
      ActCommit(cfg, v).disk.state == v.disk.state && ActCommit(cfg, v).hist == v.hist
    ensures !v.me.pc.RecoverRollingDone? ==>
      ActRecover(cfg, v).disk.state == v.disk.state && ActRecover(cfg, v).hist == v.hist
  {
  }

  lemma OtherActsKeepReceipts(cfg: Config, v: View, a: Action)
    requires !LastWrite(v.me.pc, a)
    ensures SameReceipts(v.disk.state, Act(cfg, v, a).disk.state) && Act(cfg, v, a).hist.commits == v.hist.commits
  {
    if a.Query? || a.Evaluate? || a.Append? || a.Score? {
      EvaluationKeepsReceipts(cfg, v, a);
    } else if a.Abandon? || a.Raise? || a.Exit? {
      LeavingKeepsReceipts(cfg, v, a);
    } else if a.BeginTick? {
      BeginKeepsReceipts(v);
    } else if a.Persist? || a.CommitEpoch? || a.RecoverReceipt? {
      FinishKeepsReceipts(cfg, v);
    } else {
      ChainKeepsReceipts(v, a);
    }
  }

  lemma CommitRecords(cfg: Config, d: Disk, e: int)
    requires CommitFromCompletion(cfg.sha, d, e).Ok?
    ensures Records(d.state, CommitFromCompletion(cfg.sha, d, e).value.next, e, FilesOf(d, e))
  {
  }

  ghost predicate RecordsCommit(v: View, v': View) {
    var e := v.me.epoch;
    && Records(v.disk.state, v'.disk.state, e, FilesOf(v.disk, e)) && v'.disk.epochs == v.disk.epochs
    && v'.hist.commits == v.hist.commits + [e] && v.disk.state.active == Some(e)
  }

  /** The last write of a tick or of a recovery, whichever this process is about to make. */
  function LastWritten(cfg: Config, v: View): View {
    if v.me.pc.CommitRollingDone? then ActCommit(cfg, v) else ActRecover(cfg, v)
  }

  lemma LastWriteRecords(cfg: Config, v: View)
    requires ViewInv(cfg, v) && (v.me.pc.CommitRollingDone? || v.me.pc.RecoverRollingDone?)
    ensures RecordsCommit(v, LastWritten(cfg, v))
  {
    if v.me.pc.CommitRollingDone? {
      CommitStateStep(cfg, v);
    } else {
      PendingCommit(cfg, v.disk, v.hist);
    }
    CommitRecords(cfg, v.disk, v.me.epoch);
  }

  ghost predicate ReceiptsFollow(v: View, v': View) {
    if v'.hist.commits == v.hist.commits then SameReceipts(v.disk.state, v'.disk.state) else RecordsCommit(v, v')
  }

  lemma ReceiptsFollowAct(cfg: Config, v: View, a: Action)
    requires LastWrite(v.me.pc, a) ==> RecordsCommit(v, LastWritten(cfg, v))
    ensures ReceiptsFollow(v, Act(cfg, v, a))
  {
    if LastWrite(v.me.pc, a) {
      assert Act(cfg, v, a) == LastWritten(cfg, v);
    } else {
      OtherActsKeepReceipts(cfg, v, a);
    }
  }

  /**
   The state's completed epoch, last receipt and last successful receipt change at a commit and at no other
   step, and then say what that epoch's marker says; the last success only for a dry run or a submission.
   */
  lemma ReceiptsFollowTheMarker(cfg: Config, w: World, ev: Event)
    requires Reachable(cfg, w)
    ensures var w', s := Step(cfg, w, ev), w.disk.state;
      if w'.hist.commits == w.hist.commits then SameReceipts(s, w'.disk.state)
      else && s.active.Some? && w'.hist.commits == w.hist.commits + [s.active.value]
           && Records(s, w'.disk.state, s.active.value, FilesOf(w'.disk, s.active.value))
  {
    ReachableInv(cfg, w);
    if ev.Do? && !LocalOf(w, ev.pid).pc.Outside? {
      InsideStep(cfg, w, ev.pid, ev.action);
      if LastWrite(LocalOf(w, ev.pid).pc, ev.action) { LastWriteRecords(cfg, ViewOf(w, ev.pid)); }
      ReceiptsFollowAct(cfg, ViewOf(w, ev.pid), ev.action);
    } else {
      EnterOrDie(cfg, w, ev);
    }
  }

  /** Asked to publish live, the client never leaves a receipt of a rehearsal. */
  lemma LivePublishLeavesNoRehearsal(cfg: Config, w: World, p: Pid, inputs: ChainInputs)
    requires Reachable(cfg, w) && LocalOf(w, p).pc.Submitting? && inputs.publish.LivePublish?
    ensures var f := FilesOf(Step(cfg, w, Do(p, UseSubtensor(inputs))).disk, LocalOf(w, p).epoch);
      f.receipt.Some? ==> f.receipt.value.mode in {Skipped, Error}
  {
    ReachableInv(cfg, w);
    var v := ViewOf(w, p);
    var plan := v.me.plan;
    InsideStep(cfg, w, p, UseSubtensor(inputs));
    DecisionIs(inputs, plan);
    if Decide(inputs, plan.reason, AllWeightsZero(plan)).Settle? {
      SettlesWithoutSubmitting(inputs, plan.reason, AllWeightsZero(plan));
      DryRunIff(inputs, plan.reason, AllWeightsZero(plan));
    }
  }
}
