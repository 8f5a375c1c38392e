/** What holds of every run: any number of processes, any interleaving, a crash at any write. */
module TickTheorems {
  import opened Common
  import opened Rounding
  import opened Scoring
  import opened Replay
  import opened Chain
  import opened EpochFiles
  import opened RuntimeStates
  import opened TickMachine
  import opened TickInvariant

  ghost predicate Reachable(cfg: Config, w: World) {
    exists events: seq<Event> :: w == Run(cfg, START, events)
  }

  lemma ReachableInv(cfg: Config, w: World)
    requires Reachable(cfg, w)
    ensures Inv(cfg, w)
  {
    var events: seq<Event> :| w == Run(cfg, START, events);
    StartSatisfiesInv(cfg);
    RunKeeps(cfg, START, events);
  }

  /******* set_weights *******/

  /** `set_weights` is called at most once per epoch id, and only with every gate open. */
  lemma CalledAtMostOncePerEpoch(cfg: Config, w: World)
    requires Reachable(cfg, w)
    ensures forall i, j :: 0 <= i < j < |w.hist.calls| ==> w.hist.calls[i].epoch != w.hist.calls[j].epoch
    ensures forall i :: 0 <= i < |w.hist.calls| ==>
      var c := w.hist.calls[i];
      AllGatesOpen(c.inputs) && c.plan.reason.None? && exists h :: h in c.plan.weights && c.plan.weights[h] != 0.0
  {
    ReachableInv(cfg, w);
    forall i | 0 <= i < |w.hist.calls| ensures Authorised(w.hist.calls[i]) {}
  }

  /** The epoch of a call is committed, its attempt completed, its receipt submitted, its marker verified. */
  ghost predicate Concluded(cfg: Config, w: World, e: int) {
    var f := FilesOf(w.disk, e);
    && e in w.hist.commits
    && f.attempt.Some? && f.attempt.value.status == Completed
    && f.receipt.Some? && f.receipt.value.mode == Submitted
    && f.marker.Some? && f.marker.value.mode == Submitted
    && Verify(cfg.sha, f, e).Ok?
  }

  /** Once `set_weights` has been called for an epoch, nothing is allocated until that epoch is settled. */
  lemma AllocationWaitsForSubmission(cfg: Config, w: World, ev: Event)
    requires Reachable(cfg, w)
    requires Step(cfg, w, ev).hist.allocs != w.hist.allocs
    ensures forall i :: 0 <= i < |w.hist.calls| ==>
      Concluded(cfg, w, w.hist.calls[i].epoch) && Concluded(cfg, Step(cfg, w, ev), w.hist.calls[i].epoch)
  {
    ReachableInv(cfg, w);
    StepKeeps(cfg, w, ev);
    AllocationWrites(cfg, w, ev);
    var w' := Step(cfg, w, ev);
    forall i | 0 <= i < |w.hist.calls|
      ensures Concluded(cfg, w, w.hist.calls[i].epoch) && Concluded(cfg, w', w.hist.calls[i].epoch)
    {
      var e := w.hist.calls[i].epoch;
      assert w'.hist.calls[i].epoch == e;
      assert e in w'.hist.commits;
      var j :| 0 <= j < |w.hist.commits| && w.hist.commits[j] == e;
      assert CommittedOk(cfg, w.disk, w.hist, j);
      VerifiedAttemptIsCompleted(cfg.sha, FilesOf(w.disk, e), e);
    }
  }

  lemma AllocationWrites(cfg: Config, w: World, ev: Event)
    requires Inv(cfg, w) && Step(cfg, w, ev).hist.allocs != w.hist.allocs
    ensures var w' := Step(cfg, w, ev);
      && w'.disk.state.phase == Some(Allocated)
      && w'.disk.epochs == w.disk.epochs && w'.disk.rolling == w.disk.rolling && w'.disk.rows == w.disk.rows
      && w'.hist == w.hist.(allocs := w.hist.allocs + [w.disk.state.nextEpochId])
  {
    var v := View(w.disk, w.hist, LocalOf(w, ev.pid));
    if ev.Do? {
      if ev.action.BeginTick? {
        BeginAllocates(v);
      } else {
        OnlyBeginAllocates(cfg, v, ev.action);
      }
    }
  }

  lemma BeginAllocates(v: View)
    requires ActBegin(v).hist.allocs != v.hist.allocs
    ensures var v' := ActBegin(v);
      && v'.disk == v.disk.(state := v'.disk.state) && v'.disk.state.phase == Some(Allocated)
      && v'.hist == v.hist.(allocs := v.hist.allocs + [v.disk.state.nextEpochId])
  {
  }

  lemma OnlyBeginAllocates(cfg: Config, v: View, a: Action)
    requires !a.BeginTick?
    ensures Act(cfg, v, a).hist.allocs == v.hist.allocs
  {
  }

  /******* The rolling average *******/

  /** What one committed epoch contributed, as the submission log records it. */
  datatype EpochInput = EpochInput(setup: Setup, outcomes: seq<Outcome>)

  /** The average after planning epochs one after another, each once, in order. */
  function FoldEma(cfg: Config, inputs: seq<EpochInput>): Ema {
    if inputs == [] then map[]
    else
      var last := inputs[|inputs| - 1];
      cfg.plan(FoldEma(cfg, inputs[..|inputs| - 1]), last.setup, last.outcomes).ema
  }

  /** What an epoch's outcomes hand to the average. */
  function ScoresOf(r: Rounder, input: EpochInput): EpochScores {
    EpochScores(TopKScores(r, MinerValues(input.setup.active, input.outcomes), input.setup.quota),
                InfraOnlyMiners(input.setup.active, input.outcomes))
  }

  function AllScores(r: Rounder, inputs: seq<EpochInput>): (epochs: seq<EpochScores>)
    ensures |epochs| == |inputs|
  {
    seq(|inputs|, i requires 0 <= i < |inputs| => ScoresOf(r, inputs[i]))
  }

  /** For the repository's planner the fold is `update_ema_scores` on the top-k scores, epoch after epoch. */
  lemma {:induction false} FoldIsUpdateEma(r: Rounder, alpha: real, sha: Sha, inputs: seq<EpochInput>)
    ensures FoldEma(Validator(r, alpha, sha), inputs) == Averages(r, alpha, map[], AllScores(r, inputs))
  {
    if inputs != [] {
      var n := |inputs| - 1;
      FoldIsUpdateEma(r, alpha, sha, inputs[..n]);
      assert AllScores(r, inputs)[..n] == AllScores(r, inputs[..n]);
    }
  }

  /** The inputs of the first n committed epochs, read back from the log. */
  function CommittedInputs(w: World, n: nat): seq<EpochInput>
    requires n <= |w.hist.commits|
  {
    seq(n, i requires 0 <= i < n =>
      EpochInput(SetupOf(w.hist, w.hist.commits[i]), RowsOf(w.disk.rows, w.hist.commits[i])))
  }

  lemma {:induction false} SnapshotsAreTheFold(cfg: Config, w: World, n: nat)
    requires Inv(cfg, w) && n <= |w.hist.commits|
    ensures BaseAt(w.disk, w.hist, n) == FoldEma(cfg, CommittedInputs(w, n))
  {
    if n > 0 {
      SnapshotsAreTheFold(cfg, w, n - 1);
      assert CommittedOk(cfg, w.disk, w.hist, n - 1);
      assert CommittedInputs(w, n)[..n - 1] == CommittedInputs(w, n - 1);
    }
  }

  /**
   Committed snapshots are the fold over committed epochs in order, and whenever no epoch is
   publishing the rolling file is that fold: failed and crashed epochs contribute nothing.
   */
  lemma RollingAverageIsTheFold(cfg: Config, w: World)
    requires Reachable(cfg, w)
    ensures forall i :: 0 <= i < |w.hist.commits| ==>
      FilesOf(w.disk, w.hist.commits[i]).snapshot == Some(FoldEma(cfg, CommittedInputs(w, i + 1)))
    ensures w.disk.state.phase != Some(WeightsSubmitting) ==>
      w.disk.rolling == FoldEma(cfg, CommittedInputs(w, |w.hist.commits|))
  {
    ReachableInv(cfg, w);
    forall i | 0 <= i < |w.hist.commits|
      ensures FilesOf(w.disk, w.hist.commits[i]).snapshot == Some(FoldEma(cfg, CommittedInputs(w, i + 1)))
    {
      CommittedSnapshot(cfg, w, i);
    }
    SnapshotsAreTheFold(cfg, w, |w.hist.commits|);
  }

  lemma CommittedSnapshot(cfg: Config, w: World, i: nat)
    requires Inv(cfg, w) && i < |w.hist.commits|
    ensures FilesOf(w.disk, w.hist.commits[i]).snapshot == Some(FoldEma(cfg, CommittedInputs(w, i + 1)))
  {
    SnapshotsAreTheFold(cfg, w, i + 1);
    assert CommittedOk(cfg, w.disk, w.hist, i);
    assert BaseAt(w.disk, w.hist, i + 1) == EmaOf(FilesOf(w.disk, w.hist.commits[i]));
  }

  /** In particular whenever an epoch is allocated: it starts from the last committed snapshot. */
  lemma AllocationStartsFromLastCommit(cfg: Config, w: World, ev: Event)
    requires Reachable(cfg, w) && Step(cfg, w, ev).hist.allocs != w.hist.allocs
    ensures var w' := Step(cfg, w, ev);
      && w'.disk.rolling == FoldEma(cfg, CommittedInputs(w, |w.hist.commits|))
      && (w.hist.commits != [] ==>
          Some(w'.disk.rolling) == FilesOf(w'.disk, w.hist.commits[|w.hist.commits| - 1]).snapshot)
  {
    ReachableInv(cfg, w);
    StepKeeps(cfg, w, ev);
    AllocationWrites(cfg, w, ev);
    var w' := Step(cfg, w, ev);
    SnapshotsAreTheFold(cfg, w, |w.hist.commits|);
    assert Base(w'.disk, w'.hist) == Base(w.disk, w.hist);
    if w.hist.commits != [] { assert CommittedOk(cfg, w.disk, w.hist, |w.hist.commits| - 1); }
  }

  /** The average the first n commits left, as the program's arithmetic computes it. */
  function CommittedScores(r: Rounder, w: World, n: nat): seq<EpochScores>
    requires n <= |w.hist.commits|
  {
    AllScores(r, CommittedInputs(w, n))
  }

  lemma SnapshotsAreAverages(r: Rounder, alpha: real, sha: Sha, w: World, n: nat)
    requires Reachable(Validator(r, alpha, sha), w) && n <= |w.hist.commits|
    ensures BaseAt(w.disk, w.hist, n) == Averages(r, alpha, map[], CommittedScores(r, w, n))
  {
    ReachableInv(Validator(r, alpha, sha), w);
    SnapshotsAreTheFold(Validator(r, alpha, sha), w, n);
    FoldIsUpdateEma(r, alpha, sha, CommittedInputs(w, n));
  }

  /** From any committed snapshot to any later one: the epochs in between, folded. */
  lemma SnapshotsGoOn(r: Rounder, alpha: real, sha: Sha, w: World, i: nat, n: nat)
    requires Reachable(Validator(r, alpha, sha), w) && i <= n <= |w.hist.commits|
    ensures BaseAt(w.disk, w.hist, n) == Averages(r, alpha, BaseAt(w.disk, w.hist, i), CommittedScores(r, w, n)[i..])
  {
    var epochs := CommittedScores(r, w, n);
    SnapshotsAreAverages(r, alpha, sha, w, i);
    SnapshotsAreAverages(r, alpha, sha, w, n);
    assert epochs[..i] == CommittedScores(r, w, i);
    AveragesSplit(r, alpha, map[], epochs, i);
  }

  /** Every committed snapshot, and with it every allocation's starting point, is close to exact arithmetic. */
  lemma CommittedDriftIsBounded(r: Rounder, alpha: real, sha: Sha, w: World, n: nat, h: Hotkey)
    requires r.Valid() && 0.0 < alpha <= 1.0
    requires Reachable(Validator(r, alpha, sha), w) && n <= |w.hist.commits|
    ensures WithinDrift(alpha, Get(BaseAt(w.disk, w.hist, n), h) as real - ExactEma(alpha, CommittedScores(r, w, n), h))
  {
    SnapshotsAreAverages(r, alpha, sha, w, n);
    EmaDriftIsBounded(r, alpha, CommittedScores(r, w, n), h);
  }

  /** With task values at most one, no committed average ever leaves [0, the largest quota used]. */
  lemma CommittedAveragesStayWithinQuota(r: Rounder, alpha: real, sha: Sha, w: World, n: nat, top: nat, h: Hotkey)
    requires r.Valid() && 0.0 <= alpha <= 1.0
    requires Reachable(Validator(r, alpha, sha), w) && n <= |w.hist.commits|
    requires forall i :: 0 <= i < |w.disk.rows| ==> w.disk.rows[i].outcome.value <= MICRO as real
    requires forall i :: 0 <= i < n ==> SetupOf(w.hist, w.hist.commits[i]).quota <= top
    ensures 0 <= Get(BaseAt(w.disk, w.hist, n), h) <= top * MICRO
  {
    SnapshotsAreAverages(r, alpha, sha, w, n);
    var inputs, epochs := CommittedInputs(w, n), CommittedScores(r, w, n);
    forall i | 0 <= i < n ensures 0 <= Get(epochs[i].scores, h) <= top * MICRO {
      RowsAreBounded(w.disk.rows, w.hist.commits[i]);
      EpochScoreIsBounded(r, inputs[i], h);
      assert inputs[i].setup.quota * MICRO <= top * MICRO;
    }
    EmaStaysWithinQuota(r, alpha, epochs, top, h);
  }

  lemma {:induction false} RowsAreBounded(rows: seq<Row>, e: int)
    requires forall i :: 0 <= i < |rows| ==> rows[i].outcome.value <= MICRO as real
    ensures forall i :: 0 <= i < |RowsOf(rows, e)| ==> RowsOf(rows, e)[i].value <= MICRO as real
  {
    if rows != [] {
      RowsAreBounded(rows[..|rows| - 1], e);
    }
  }

  lemma {:induction false} ValuesAreBounded(outcomes: seq<Outcome>, h: Hotkey)
    requires forall i :: 0 <= i < |outcomes| ==> outcomes[i].value <= MICRO as real
    ensures forall i :: 0 <= i < |ValuesOf(outcomes, h)| ==> ValuesOf(outcomes, h)[i] <= MICRO as real
  {
    if outcomes != [] {
      ValuesAreBounded(outcomes[..|outcomes| - 1], h);
    }
  }

  lemma EpochScoreIsBounded(r: Rounder, input: EpochInput, h: Hotkey)
    requires r.Valid()
    requires forall i :: 0 <= i < |input.outcomes| ==> input.outcomes[i].value <= MICRO as real
    ensures 0 <= Get(ScoresOf(r, input).scores, h) <= input.setup.quota * MICRO
  {
    if h in input.setup.active {
      ValuesAreBounded(input.outcomes, h);
      TopKScoreIsWithinQuota(r, ValuesOf(input.outcomes, h), input.setup.quota);
    }
  }

  /**
   A miner that had a positive average after i commits and has only idled in the committed epochs since
   still has one, and never a larger one: at one micro-unit it stays, above that each epoch that
   measured it took at least one.
   */
  lemma IdleMinerKeepsItsAverage(r: Rounder, sha: Sha, w: World, i: nat, n: nat, h: Hotkey)
    requires r.Valid() && Reachable(Validator(r, EMA_ALPHA, sha), w)
    requires i <= n <= |w.hist.commits| && Get(BaseAt(w.disk, w.hist, i), h) >= 1
    requires forall k :: i <= k < n ==> Idle(CommittedScores(r, w, n)[k], h)
    ensures 1 <= Get(BaseAt(w.disk, w.hist, n), h) <= Get(BaseAt(w.disk, w.hist, i), h)
    ensures || Get(BaseAt(w.disk, w.hist, n), h) == 1
            || Get(BaseAt(w.disk, w.hist, n), h)
               <= Get(BaseAt(w.disk, w.hist, i), h) - MeasuredEpochs(CommittedScores(r, w, n)[i..], h)
  {
    SnapshotsGoOn(r, EMA_ALPHA, sha, w, i, n);
    IdleAverageStaysPositive(r, BaseAt(w.disk, w.hist, i), CommittedScores(r, w, n)[i..], h);
  }

  /** And the weights an epoch computes from such an average are positive for it, though it idles again. */
  lemma IdleMinerKeepsItsWeight(r: Rounder, sha: Sha, base: Ema, next: EpochInput, h: Hotkey)
    requires r.Valid() && Get(base, h) >= 1
    requires h in next.setup.active && Idle(ScoresOf(r, next), h)
    ensures h in Validator(r, EMA_ALPHA, sha).plan(base, next.setup, next.outcomes).weights
    ensures Validator(r, EMA_ALPHA, sha).plan(base, next.setup, next.outcomes).weights[h] > 0.0
  {
    var epochs := [ScoresOf(r, next)];
    assert epochs[..0] == [];
    IdleMinerKeepsPositiveWeight(r, base, epochs, next.setup.active, h);
  }

  /******* Recovery *******/

  /** An epoch in weights_submitting whose marker is durable. */
  ghost predicate Sealed(d: Disk) {
    d.state.phase == Some(WeightsSubmitting) && d.state.active.Some? && FilesOf(d, d.state.active.value).marker.Some?
  }

  /** The disk a successful `recover_receipt` leaves. */
  function RecoveredDisk(cfg: Config, d: Disk): Disk {
    match Recover(cfg.sha, d)
    case Err(_) => d
    case Ok(c) => d.(rolling := c.rolling, state := c.next)
  }

  /** A tick that demands recovery is always answered by a recovery that succeeds, and the other way round. */
  lemma RecoveryIsComplete(cfg: Config, w: World)
    requires Reachable(cfg, w)
    ensures Begin(w.disk) == Refuse(RecoveryRequired) <==> Sealed(w.disk)
    ensures Recover(cfg.sha, w.disk).Ok? <==> Sealed(w.disk)
  {
    ReachableInv(cfg, w);
    if Sealed(w.disk) {
      PendingCommit(cfg, w.disk, w.hist);
    }
  }

  /** Both are refused exactly when the attempt is unsettled, or nothing says how the chain call ended. */
  lemma StuckIff(cfg: Config, w: World)
    requires Reachable(cfg, w)
    ensures Stuck(cfg.sha, w.disk) <==>
      && w.disk.state.phase == Some(WeightsSubmitting) && w.disk.state.active.Some?
      && var f := FilesOf(w.disk, w.disk.state.active.value);
        || (f.attempt.Some? && !f.attempt.value.status.Completed?)
        || (f.marker.None? && !(f.receipt.Some? && DiscardableMode(f.receipt.value.mode)))
  {
    ReachableInv(cfg, w);
    if Sealed(w.disk) {
      PendingCommit(cfg, w.disk, w.hist);
    }
  }

  /** Finish the tick of process p from wherever it stands after the marker. */
  function Finish(cfg: Config, w: World, p: Pid): World {
    Step(cfg, Step(cfg, Step(cfg, w, Do(p, Persist)), Do(p, CommitEpoch)), Do(p, CommitEpoch))
  }

  /** Kill process p and recover from process q. */
  function CrashAndRecover(cfg: Config, w: World, p: Pid, q: Pid): World {
    RecoverAt(cfg, Step(cfg, w, Crash(p)), q)
  }

  function RecoverAt(cfg: Config, w: World, q: Pid): World {
    Step(cfg, Step(cfg, Step(cfg, w, Acquire(q, true)), Do(q, RecoverReceipt)), Do(q, RecoverReceipt))
  }

  /** Publishing the rolling average does not change what recovery will leave. */
  lemma RecoveryIsIdempotent(cfg: Config, d: Disk, h: Hist)
    requires DiskInv(cfg, d, h) && Sealed(d)
    ensures var d' := d.(rolling := EmaOf(FilesOf(d, d.state.active.value)));
      Recover(cfg.sha, d') == Recover(cfg.sha, d) && RecoveredDisk(cfg, d') == RecoveredDisk(cfg, d)
  {
    var d' := d.(rolling := EmaOf(FilesOf(d, d.state.active.value)));
    PendingCommit(cfg, d, h);
    assert FilesOf(d', d.state.active.value) == FilesOf(d, d.state.active.value);
  }

  function Published(d: Disk): Disk
    requires d.state.active.Some?
  {
    d.(rolling := EmaOf(FilesOf(d, d.state.active.value)))
  }

  /** The two steps of a recovery, seen by the process that takes them. */
  lemma RecoverActs(cfg: Config, v: View)
    requires ViewInv(cfg, v) && Sealed(v.disk)
    ensures v.me.pc.Recovering? ==>
      ActRecover(cfg, v).disk == Published(v.disk) && ActRecover(cfg, v).me.pc.RecoverRollingDone?
    ensures v.me.pc.RecoverRollingDone? ==>
      ActRecover(cfg, v).disk == RecoveredDisk(cfg, v.disk) && ActRecover(cfg, v).me.pc.Outside?
  {
    PendingCommit(cfg, v.disk, v.hist);
  }

  /** The last steps of a tick, from the marker on. */
  lemma FinishActs(cfg: Config, v: View)
    requires ViewInv(cfg, v) && HasMarker(v.me.pc)
    ensures Sealed(v.disk)
    ensures v.me.pc.MarkerDone? ==>
      ActPersist(cfg, v).disk == Published(v.disk) && ActPersist(cfg, v).me.pc.RollingDone?
    ensures v.me.pc.RollingDone? ==>
      ActCommit(cfg, v).disk == Published(v.disk) && ActCommit(cfg, v).me.pc.CommitRollingDone?
    ensures v.me.pc.CommitRollingDone? ==>
      ActCommit(cfg, v).disk == RecoveredDisk(cfg, v.disk) && ActCommit(cfg, v).me.pc.Exiting?
  {
    BuiltMarkerVerifies(cfg.sha, v.me.epoch, v.me.setup.quota, v.me.plan, v.me.result);
    PendingCommit(cfg, v.disk, v.hist);
  }

  /** The process that steps outside gives the lock back. */
  lemma LeavingUnlocks(cfg: Config, w: World, p: Pid, a: Action)
    requires LockInv(cfg, w) && !LocalOf(w, p).pc.Outside?
    requires Act(cfg, View(w.disk, w.hist, LocalOf(w, p)), a).me.pc.Outside?
    ensures Step(cfg, w, Do(p, a)).lock.None?
  {
  }

  /** A step of the process p standing at pc, as its action function gives it. */
  lemma DoStep(cfg: Config, w: World, p: Pid, a: Action)
    requires Inv(cfg, w) && !LocalOf(w, p).pc.Outside?
    ensures var v := Act(cfg, View(w.disk, w.hist, LocalOf(w, p)), a);
      var w' := Step(cfg, w, Do(p, a));
      && ViewInv(cfg, View(w.disk, w.hist, LocalOf(w, p)))
      && Inv(cfg, w') && w'.disk == v.disk && LocalOf(w', p) == (if v.me.pc.Outside? then BLANK else v.me)
  {
    StepKeeps(cfg, w, Do(p, a));
  }

  lemma FinishFromCommitRolling(cfg: Config, w: World, p: Pid)
    requires Inv(cfg, w) && LocalOf(w, p).pc.CommitRollingDone?
    ensures Sealed(w.disk)
    ensures Step(cfg, w, Do(p, CommitEpoch)).disk == RecoveredDisk(cfg, w.disk)
    ensures LocalOf(Step(cfg, w, Do(p, CommitEpoch)), p).pc.Exiting?
  {
    DoStep(cfg, w, p, CommitEpoch);
    FinishActs(cfg, View(w.disk, w.hist, LocalOf(w, p)));
  }

  lemma RollingStep(cfg: Config, w: World, p: Pid)
    requires Inv(cfg, w) && LocalOf(w, p).pc.RollingDone?
    ensures var w' := Step(cfg, w, Do(p, CommitEpoch));
      Inv(cfg, w') && Sealed(w.disk) && w'.disk == Published(w.disk) && LocalOf(w', p).pc.CommitRollingDone?
  {
    DoStep(cfg, w, p, CommitEpoch);
    FinishActs(cfg, View(w.disk, w.hist, LocalOf(w, p)));
  }

  lemma MarkerStep(cfg: Config, w: World, p: Pid)
    requires Inv(cfg, w) && LocalOf(w, p).pc.MarkerDone?
    ensures var w' := Step(cfg, w, Do(p, Persist));
      Inv(cfg, w') && Sealed(w.disk) && w'.disk == Published(w.disk) && LocalOf(w', p).pc.RollingDone?
  {
    DoStep(cfg, w, p, Persist);
    FinishActs(cfg, View(w.disk, w.hist, LocalOf(w, p)));
  }

  lemma FinishFromRolling(cfg: Config, w: World, p: Pid)
    requires Inv(cfg, w) && LocalOf(w, p).pc.RollingDone?
    ensures Sealed(w.disk)
    ensures Step(cfg, Step(cfg, w, Do(p, CommitEpoch)), Do(p, CommitEpoch)).disk == RecoveredDisk(cfg, w.disk)
  {
    RollingStep(cfg, w, p);
    RecoveryIsIdempotent(cfg, w.disk, w.hist);
    FinishFromCommitRolling(cfg, Step(cfg, w, Do(p, CommitEpoch)), p);
  }

  lemma FinishFromMarker(cfg: Config, w: World, p: Pid)
    requires Inv(cfg, w) && LocalOf(w, p).pc.MarkerDone?
    ensures Sealed(w.disk) && Finish(cfg, w, p).disk == RecoveredDisk(cfg, w.disk)
  {
    MarkerStep(cfg, w, p);
    RecoveryIsIdempotent(cfg, w.disk, w.hist);
    FinishFromRolling(cfg, Step(cfg, w, Do(p, Persist)), p);
  }

  lemma PersistIsOver(cfg: Config, w: World, p: Pid)
    requires LocalOf(w, p).pc.RollingDone? || LocalOf(w, p).pc.CommitRollingDone?
    ensures var w' := Step(cfg, w, Do(p, Persist));
      w'.disk == w.disk && w'.hist == w.hist && LocalOf(w', p) == LocalOf(w, p)
  {
  }

  lemma FinishReaches(cfg: Config, w: World, p: Pid)
    requires Inv(cfg, w) && HasMarker(LocalOf(w, p).pc)
    ensures Sealed(w.disk) && Finish(cfg, w, p).disk == RecoveredDisk(cfg, w.disk)
  {
    if LocalOf(w, p).pc.MarkerDone? {
      FinishFromMarker(cfg, w, p);
    } else {
      var w1 := Step(cfg, w, Do(p, Persist));
      PersistIsOver(cfg, w, p);
      StepKeeps(cfg, w, Do(p, Persist));
      if LocalOf(w, p).pc.RollingDone? {
        FinishFromRolling(cfg, w1, p);
      } else {
        FinishFromCommitRolling(cfg, w1, p);
        ExitingIgnoresCommit(cfg, Step(cfg, w1, Do(p, CommitEpoch)), p);
      }
    }
  }

  lemma RecoverOnce(cfg: Config, w: World, q: Pid)
    requires Inv(cfg, w) && Sealed(w.disk) && LocalOf(w, q).pc.Recovering?
    ensures var w' := Step(cfg, w, Do(q, RecoverReceipt));
      Inv(cfg, w') && w'.disk == Published(w.disk) && LocalOf(w', q).pc.RecoverRollingDone?
  {
    DoStep(cfg, w, q, RecoverReceipt);
    RecoverActs(cfg, View(w.disk, w.hist, LocalOf(w, q)));
  }

  lemma RecoverTwice(cfg: Config, w: World, q: Pid)
    requires Inv(cfg, w) && Sealed(w.disk) && LocalOf(w, q).pc.RecoverRollingDone?
    ensures var w' := Step(cfg, w, Do(q, RecoverReceipt));
      Inv(cfg, w') && w'.disk == RecoveredDisk(cfg, w.disk) && w'.lock.None?
  {
    DoStep(cfg, w, q, RecoverReceipt);
    RecoverActs(cfg, View(w.disk, w.hist, LocalOf(w, q)));
    LeavingUnlocks(cfg, w, q, RecoverReceipt);
  }

  /** With the lock free, an explicit recovery of a sealed epoch reaches the recovered disk. */
  lemma RecoverAtReaches(cfg: Config, w: World, q: Pid)
    requires Inv(cfg, w) && w.lock.None? && Sealed(w.disk)
    ensures RecoverAt(cfg, w, q).disk == RecoveredDisk(cfg, w.disk)
    ensures Inv(cfg, RecoverAt(cfg, w, q)) && RecoverAt(cfg, w, q).lock.None?
  {
    RecoveryIsIdempotent(cfg, w.disk, w.hist);
    var w1 := Step(cfg, w, Acquire(q, true));
    StepKeeps(cfg, w, Acquire(q, true));
    RecoverOnce(cfg, w1, q);
    RecoverTwice(cfg, Step(cfg, w1, Do(q, RecoverReceipt)), q);
  }

  lemma ExitingIgnoresCommit(cfg: Config, w: World, p: Pid)
    requires LocalOf(w, p).pc.Exiting?
    ensures Step(cfg, w, Do(p, CommitEpoch)).disk == w.disk
  {
  }

  /**
   Confluence: finishing the tick, or dying at any write after the marker and recovering from any
   process, leaves the same disk.
   */
  lemma CrashAndRecoverEqualsFinish(cfg: Config, w: World, p: Pid, q: Pid)
    requires Reachable(cfg, w) && HasMarker(LocalOf(w, p).pc)
    ensures CrashAndRecover(cfg, w, p, q).disk == Finish(cfg, w, p).disk
    ensures Finish(cfg, w, p).disk.state.phase == Some(Committed)
  {
    ReachableInv(cfg, w);
    FinishReaches(cfg, w, p);
    StepKeeps(cfg, w, Crash(p));
    RecoverAtReaches(cfg, Step(cfg, w, Crash(p)), q);
    PendingCommit(cfg, w.disk, w.hist);
  }

  /** Once the marker is durable a step can only publish the average, commit, or change nothing. */
  ghost predicate SealedNext(cfg: Config, d: Disk, d': Disk)
    requires d.state.active.Some?
  {
    d' == d || d' == Published(d) || d' == RecoveredDisk(cfg, d)
  }

  lemma SealedBegin(cfg: Config, v: View, detail: Option<string>)
    requires ViewInv(cfg, v) && Sealed(v.disk)
    ensures ActBegin(v).disk == v.disk && ActExit(v, detail).disk == v.disk && ActAbandon(v).disk == v.disk
  {
  }

  lemma SealedTick(cfg: Config, v: View, a: Action)
    requires ViewInv(cfg, v) && Sealed(v.disk)
    requires a.Query? || a.Evaluate? || a.Append? || a.Score?
    ensures Act(cfg, v, a).disk == v.disk
  {
  }

  lemma SealedChain(cfg: Config, v: View, a: Action)
    requires ViewInv(cfg, v) && Sealed(v.disk)
    ensures ActChain(v, a).disk == v.disk
  {
    assert !v.me.pc.Submitting? && !Live(v.me.pc) && !v.me.pc.Unwinding?;
  }

  lemma SealedPersist(cfg: Config, v: View)
    requires ViewInv(cfg, v) && Sealed(v.disk)
    ensures SealedNext(cfg, v.disk, ActPersist(cfg, v).disk)
    ensures SealedNext(cfg, v.disk, ActCommit(cfg, v).disk)
  {
    if HasMarker(v.me.pc) {
      FinishActs(cfg, v);
    } else {
      assert Publishing(v.me.pc) ==> FilesAt(cfg, v.me).marker.None?;
    }
  }

  lemma SealedRecover(cfg: Config, v: View)
    requires ViewInv(cfg, v) && Sealed(v.disk)
    ensures SealedNext(cfg, v.disk, ActRecover(cfg, v).disk)
  {
    RecoverActs(cfg, v);
  }

  lemma SealedAct(cfg: Config, v: View, a: Action)
    requires ViewInv(cfg, v) && Sealed(v.disk)
    ensures SealedNext(cfg, v.disk, Act(cfg, v, a).disk)
  {
    SealedBegin(cfg, v, if a.Exit? then a.detail else None);
    SealedPersist(cfg, v);
    SealedRecover(cfg, v);
    if a.Query? || a.Evaluate? || a.Append? || a.Score? { SealedTick(cfg, v, a); }
    SealedChain(cfg, v, a);
  }

  /** The sealed outcome: still to be committed as `target`, or already committed as it. */
  ghost predicate Destined(cfg: Config, d: Disk, target: Disk) {
    Sealed(d) && RecoveredDisk(cfg, d) == target
  }

  lemma SealedStep(cfg: Config, w: World, ev: Event, target: Disk)
    requires Inv(cfg, w) && Destined(cfg, w.disk, target)
    ensures Destined(cfg, Step(cfg, w, ev).disk, target) || Step(cfg, w, ev).disk == target
  {
    if ev.Do? && !LocalOf(w, ev.pid).pc.Outside? {
      DoStep(cfg, w, ev.pid, ev.action);
      SealedAct(cfg, View(w.disk, w.hist, LocalOf(w, ev.pid)), ev.action);
      RecoveryIsIdempotent(cfg, w.disk, w.hist);
    }
  }

  /**
   The marker decides. Whatever processes run, fail, crash or recover afterwards, the epoch stays
   in weights_submitting until some step leaves exactly the disk recovery would have left.
   */
  lemma {:induction false} MarkerSealsTheEpoch(cfg: Config, w: World, events: seq<Event>)
    requires Inv(cfg, w) && Sealed(w.disk)
    ensures || Destined(cfg, Run(cfg, w, events).disk, RecoveredDisk(cfg, w.disk))
            || exists n :: 0 <= n <= |events| && Run(cfg, w, events[..n]).disk == RecoveredDisk(cfg, w.disk)
  {
    if events != [] {
      var before := events[..|events| - 1];
      var target := RecoveredDisk(cfg, w.disk);
      MarkerSealsTheEpoch(cfg, w, before);
      if Destined(cfg, Run(cfg, w, before).disk, target) {
        RunKeeps(cfg, w, before);
        SealedStep(cfg, Run(cfg, w, before), events[|events| - 1], target);
        assert events[..|events|] == events;
      } else {
        var n :| 0 <= n <= |before| && Run(cfg, w, before[..n]).disk == target;
        assert before[..n] == events[..n];
      }
    }
  }

  /** A committed epoch keeps verifying, with the same average, in every later world. */
  lemma CommittedMarkerVerifiesForever(cfg: Config, w: World, events: seq<Event>, i: nat)
    requires Reachable(cfg, w) && i < |w.hist.commits|
    ensures var later := Run(cfg, w, events);
      && i < |later.hist.commits| && later.hist.commits[i] == w.hist.commits[i]
      && Verify(cfg.sha, FilesOf(later.disk, w.hist.commits[i]), w.hist.commits[i]).Ok?
      && Verify(cfg.sha, FilesOf(later.disk, w.hist.commits[i]), w.hist.commits[i])
         == Verify(cfg.sha, FilesOf(w.disk, w.hist.commits[i]), w.hist.commits[i])
  {
    ReachableInv(cfg, w);
    RunKeeps(cfg, w, events);
    assert CommittedOk(cfg, w.disk, w.hist, i);
  }

  /******* Failing closed, and moving on *******/

  /** No process is inside and no decision applies. */
  ghost predicate Halted(cfg: Config, w: World) {
    w.disk.state.phase == Some(WeightsSubmitting) && Stuck(cfg.sha, w.disk)
    && forall p :: LocalOf(w, p).pc.Outside? || LocalOf(w, p).pc.Deciding? || LocalOf(w, p).pc.Recovering?
                || LocalOf(w, p).pc.Exiting?
  }

  lemma HaltedStep(cfg: Config, w: World, ev: Event)
    requires Inv(cfg, w) && Halted(cfg, w)
    ensures Halted(cfg, Step(cfg, w, ev)) && Step(cfg, w, ev).disk == w.disk && Step(cfg, w, ev).hist == w.hist
  {
    var w' := Step(cfg, w, ev);
    HaltedAct(cfg, w, ev);
    forall p ensures LocalOf(w', p).pc.Outside? || LocalOf(w', p).pc.Deciding? || LocalOf(w', p).pc.Recovering?
                  || LocalOf(w', p).pc.Exiting?
    {
      assert LocalOf(w, p).pc.Outside? || !LocalOf(w, p).pc.Outside?;
    }
  }

  lemma HaltedAct(cfg: Config, w: World, ev: Event)
    requires Inv(cfg, w) && Halted(cfg, w)
    ensures var w', pc := Step(cfg, w, ev), LocalOf(Step(cfg, w, ev), ev.pid).pc;
      && w'.disk == w.disk && w'.hist == w.hist
      && (pc.Outside? || pc.Deciding? || pc.Recovering? || pc.Exiting?)
  {
    var me := LocalOf(w, ev.pid);
    assert me.pc.Outside? || me.pc.Deciding? || me.pc.Recovering? || me.pc.Exiting?;
    if ev.Do? && !me.pc.Outside? {
      HaltedView(cfg, View(w.disk, w.hist, me), ev.action);
    }
  }

  /** A process that can only decide, recover or exit is turned away. */
  lemma HaltedView(cfg: Config, v: View, a: Action)
    requires v.disk.state.phase == Some(WeightsSubmitting) && Stuck(cfg.sha, v.disk)
    requires v.me.pc.Deciding? || v.me.pc.Recovering? || v.me.pc.Exiting?
    ensures var v' := Act(cfg, v, a);
      && v'.disk == v.disk && v'.hist == v.hist
      && (v'.me.pc.Outside? || v'.me.pc.Deciding? || v'.me.pc.Recovering? || v'.me.pc.Exiting?)
  {
  }

  /**
   A stuck epoch is never resolved automatically: no later tick, recovery or crash changes the
   disk, allocates an epoch or calls `set_weights` again.
   */
  lemma {:induction false} StuckFailsClosed(cfg: Config, w: World, events: seq<Event>)
    requires Reachable(cfg, w) && w.lock.None? && Stuck(cfg.sha, w.disk)
    ensures Run(cfg, w, events).disk == w.disk && Run(cfg, w, events).hist == w.hist
    ensures Halted(cfg, Run(cfg, w, events))
  {
    ReachableInv(cfg, w);
    StuckIff(cfg, w);
    if events != [] {
      StuckFailsClosed(cfg, w, events[..|events| - 1]);
      RunKeeps(cfg, w, events[..|events| - 1]);
      HaltedStep(cfg, Run(cfg, w, events[..|events| - 1]), events[|events| - 1]);
    } else {
      assert forall p :: LocalOf(w, p).pc.Outside?;
    }
  }

  function StartTick(cfg: Config, w: World, p: Pid): World {
    Step(cfg, Step(cfg, Step(cfg, w, Acquire(p, false)), Do(p, BeginTick)), Do(p, BeginTick))
  }

  lemma BeginActs(v: View)
    requires v.me.pc.Deciding? ==> !Begin(v.disk).Refuse?
    requires v.me.pc.Deciding? || v.me.pc.Advancing? || v.me.pc.Entered?
    ensures v.me.pc.Deciding? ==> ActBegin(v).me.pc.Entered? || ActBegin(v).me.pc.Advancing?
    ensures !v.me.pc.Deciding? ==> ActBegin(v).me.pc.Entered?
  {
  }

  lemma StartTickEnters(cfg: Config, w: World, p: Pid)
    requires Inv(cfg, w) && w.lock.None? && !Begin(w.disk).Refuse?
    ensures LocalOf(StartTick(cfg, w, p), p).pc.Entered?
  {
    var w1 := Step(cfg, w, Acquire(p, false));
    StepKeeps(cfg, w, Acquire(p, false));
    DoStep(cfg, w1, p, BeginTick);
    BeginActs(View(w1.disk, w1.hist, LocalOf(w1, p)));
    var w2 := Step(cfg, w1, Do(p, BeginTick));
    DoStep(cfg, w2, p, BeginTick);
    BeginActs(View(w2.disk, w2.hist, LocalOf(w2, p)));
  }

  /** Every world whose lock is free either is stuck, or one recovery away at most from a new tick. */
  lemma UnstuckMovesOn(cfg: Config, w: World, p: Pid)
    requires Reachable(cfg, w) && w.lock.None? && !Stuck(cfg.sha, w.disk)
    ensures LocalOf(StartTick(cfg, if Sealed(w.disk) then RecoverAt(cfg, w, p) else w, p), p).pc.Entered?
  {
    ReachableInv(cfg, w);
    if Sealed(w.disk) {
      RecoverAtReaches(cfg, w, p);
      PendingCommit(cfg, w.disk, w.hist);
      StartTickEnters(cfg, RecoverAt(cfg, w, p), p);
    } else {
      RecoveryIsComplete(cfg, w);
      StartTickEnters(cfg, w, p);
    }
  }

  /******* Interleaving *******/

  /** Two processes are never inside at once. */
  lemma LockExcludes(cfg: Config, w: World, p: Pid, q: Pid)
    requires Reachable(cfg, w)
    requires !LocalOf(w, p).pc.Outside? && !LocalOf(w, q).pc.Outside?
    ensures p == q && w.lock == Some(p)
  {
    ReachableInv(cfg, w);
  }

  /** Ids are 1, 2, 3, ...; each enters evaluating at most once; every stored state validates. */
  lemma EpochsAdvance(cfg: Config, w: World)
    requires Reachable(cfg, w)
    ensures forall i :: 0 <= i < |w.hist.allocs| ==> w.hist.allocs[i] == i + 1
    ensures Increasing(w.hist.evaluated) && Increasing(w.hist.commits)
    ensures Validates(w.disk.state)
  {
    ReachableInv(cfg, w);
  }

  /** A process inside a tick body. */
  predicate InTick(pc: Pc) {
    pc.Entered? || pc.Polled? || pc.Scoring? || pc.Unwinding? || Publishing(pc)
  }

  /** The lock holder's epoch stays the active one until it commits or fails. */
  lemma HolderOwnsTheActiveEpoch(cfg: Config, w: World, p: Pid)
    requires Reachable(cfg, w) && InTick(LocalOf(w, p).pc)
    ensures w.lock == Some(p) && w.disk.state.active == Some(LocalOf(w, p).epoch)
    ensures w.disk.state.phase != Some(Committed)
    ensures LocalOf(w, p).pc.Scoring? ==> RowsOf(w.disk.rows, LocalOf(w, p).epoch) == LocalOf(w, p).outcomes
  {
    ReachableInv(cfg, w);
  }

  /******* Replay of the durable log *******/

  /**
   For any epoch whose weights artifact exists, replaying the log gives back the recorded score of
   every miner with a row, the recorded map exactly when every active miner has one, and the
   recorded weights.
   */
  lemma ReplayAgreesWithArtifact(r: Rounder, alpha: real, sha: Sha, w: World, e: int, keys: seq<Hotkey>)
    requires Reachable(Validator(r, alpha, sha), w)
    requires FilesOf(w.disk, e).weights.Some?
    requires forall h :: h in keys <==> h in FilesOf(w.disk, e).weights.value.plan.weights
    ensures var a, outcomes := FilesOf(w.disk, e).weights.value, RowsOf(w.disk.rows, e);
      var replayed := TopKScores(r, ReplayValues(outcomes), a.quota);
      && a.epochId == e
      && (forall h :: HasOutcome(outcomes, h) ==>
            h in replayed && h in a.plan.scores && replayed[h] == a.plan.scores[h])
      && (replayed == a.plan.scores <==> forall h :: h in a.plan.weights ==> HasOutcome(outcomes, h))
      && NormalizeActive(a.plan.ema, keys) == a.plan.weights
  {
    var cfg := Validator(r, alpha, sha);
    ReachableInv(cfg, w);
    assert ArtifactOk(cfg, w.disk, w.hist, e);
    var a, outcomes, setup := FilesOf(w.disk, e).weights.value, RowsOf(w.disk.rows, e), SetupOf(w.hist, e);
    assert Planned(cfg, a.plan, setup, outcomes);
    PlannedAsWritten(r, alpha, sha, a.plan, setup, outcomes);
    ReplayedMapMatchesIff(r, setup.active, outcomes, setup.quota);
    ReplayedWeightsMatch(a.plan, setup.active, keys);
    forall h | HasOutcome(outcomes, h)
      ensures h in setup.active
    {
      var i :| 0 <= i < |outcomes| && outcomes[i].hotkey == h;
    }
    forall h | HasOutcome(outcomes, h) {
      ReplayedScoreMatches(r, setup.active, outcomes, setup.quota, h);
    }
  }

  lemma PlannedAsWritten(r: Rounder, alpha: real, sha: Sha, plan: WeightsPlan, setup: Setup, outcomes: seq<Outcome>)
    requires Planned(Validator(r, alpha, sha), plan, setup, outcomes)
    ensures plan.scores == TopKScores(r, MinerValues(setup.active, outcomes), setup.quota)
    ensures plan.weights == NormalizeActive(plan.ema, setup.active)
  {
    var previous: Ema :| plan == Validator(r, alpha, sha).plan(previous, setup, outcomes);
    assert plan == PlanWeights(r, alpha, setup.quota, previous, setup.active, outcomes);
  }
}
