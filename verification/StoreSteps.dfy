/**
 The store's methods and the machine's steps are one program: every disk a method leaves on its way, as its
 trace lists them, is the disk the machine leaves at the corresponding step, in the same order.
 */
module StoreSteps {
  import opened Common
  import opened EpochFiles
  import opened RuntimeStates
  import opened ValidatorStore
  import opened TickMachine

  /** `_begin_locked`: refused, one write, or two. */
  lemma BeginLockedSteps(v: View)
    requires v.me.pc.Deciding?
    ensures var v1 := ActBegin(v);
      var v2 := ActBegin(v1);
      if v1.me.pc.Outside? then BeginResult(v.disk).Err? && BeginTrace(v.disk) == []
      else && v2.me.pc.Entered? && BeginResult(v.disk) == Ok(v2.me.epoch)
           && BeginTrace(v.disk) == if v1.me.pc.Entered? then [v1.disk] else [v1.disk, v2.disk]
  {
  }

  /** `_transition_locked` on the way to the chain call. */
  lemma TransitionLockedSteps(cfg: Config, v: View, setup: Setup)
    ensures v.me.pc.Entered? ==>
      var t := TransitionTo(cfg.sha, v.disk, v.me.epoch, Querying);
      TransitionTrace(v.disk, t) == if t.Move? then [ActQuery(cfg, v).disk] else []
    ensures v.me.pc.Entered? || v.me.pc.Polled? ==>
      var t := TransitionTo(cfg.sha, v.disk, v.me.epoch, Evaluating);
      TransitionTrace(v.disk, t) == if t.Move? then [ActEvaluate(cfg, v, setup).disk] else []
    ensures v.me.pc.Scoring? ==>
      var t := TransitionTo(cfg.sha, v.disk, v.me.epoch, WeightsSubmitting);
      TransitionTrace(v.disk, t) == if t.Move? then [ActScore(cfg, v).disk] else []
  {
  }

  /** The commit: the rolling average, then the state, though the machine decides anew before each. */
  lemma CommitSteps(cfg: Config, v: View)
    requires v.me.pc.RollingDone? && TransitionTo(cfg.sha, v.disk, v.me.epoch, Committed).CommitTo?
    ensures TransitionTrace(v.disk, TransitionTo(cfg.sha, v.disk, v.me.epoch, Committed))
         == [ActCommit(cfg, v).disk, ActCommit(cfg, ActCommit(cfg, v)).disk]
  {
    var c := TransitionTo(cfg.sha, v.disk, v.me.epoch, Committed).commit;
    assert FilesOf(ActCommit(cfg, v).disk, v.me.epoch) == FilesOf(v.disk, v.me.epoch);
    assert TransitionTo(cfg.sha, ActCommit(cfg, v).disk, v.me.epoch, Committed) == CommitTo(c);
  }

  /** `recover_receipt`: the same two writes. */
  lemma RecoverReceiptSteps(cfg: Config, v: View)
    requires v.me.pc.Recovering? && Recover(cfg.sha, v.disk).Ok?
    ensures CommitTrace(v.disk, Recover(cfg.sha, v.disk).value)
         == [ActRecover(cfg, v).disk, ActRecover(cfg, ActRecover(cfg, v)).disk]
  {
    var d := ActRecover(cfg, v).disk;
    assert FilesOf(d, v.disk.state.active.value) == FilesOf(v.disk, v.disk.state.active.value);
    assert Recover(cfg.sha, d) == Recover(cfg.sha, v.disk);
  }

  /** `_fail_evaluation_locked` and `_fail_weights_locked`: one write, or none. */
  lemma FailingSteps(v: View, detail: Option<string>)
    ensures v.me.pc.Exiting? ==>
      var failed := FailEvaluation(v.disk, v.me.epoch, ExitText(detail));
      StateTrace(v.disk, failed) == if failed.Ok? then [ActExit(v, detail).disk] else []
    ensures v.me.pc.Abandoning? ==>
      var failed := FailWeights(v.disk, v.me.epoch, IncompleteText(v.me.result));
      StateTrace(v.disk, failed) == if failed.Ok? then [ActAbandon(v).disk] else []
  {
  }
}
