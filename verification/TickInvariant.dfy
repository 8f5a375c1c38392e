/** What every reachable world satisfies, and that each step keeps it. */
module TickInvariant {
  import opened Common
  import opened Scoring
  import opened Replay
  import opened Chain
  import opened EpochFiles
  import opened RuntimeStates
  import opened TickMachine

  /******* The disk *******/

  /** Ids are handed out as 1, 2, 3, ...; the active epoch is the newest. */
  ghost predicate AllocInv(d: Disk, h: Hist) {
    && |h.allocs| == d.state.nextEpochId - 1
    && (forall i :: 0 <= i < |h.allocs| ==> h.allocs[i] == i + 1)
    && (d.state.active.Some? ==> d.state.active.value == d.state.nextEpochId - 1)
  }

  /** The epoch has been allocated but not evaluated, or not even allocated. */
  ghost predicate Untouched(s: RuntimeState, e: int) {
    e >= s.nextEpochId || (s.active == Some(e) && (s.phase == Some(Allocated) || s.phase == Some(Querying)))
  }

  ghost predicate EvalInv(d: Disk, h: Hist) {
    && Increasing(h.evaluated)
    && (forall i :: 0 <= i < |h.evaluated| ==>
          1 <= h.evaluated[i] < d.state.nextEpochId && !Untouched(d.state, h.evaluated[i]))
    && (d.state.phase == Some(Evaluating) || d.state.phase == Some(WeightsSubmitting) ==>
          d.state.active.Some? && d.state.active.value in h.setups)
  }

  ghost predicate FreshInv(d: Disk) {
    && (forall e :: Untouched(d.state, e) ==>
          FilesOf(d, e) == NO_FILES && RowsOf(d.rows, e) == [])
    && (d.state.phase == Some(Evaluating) && d.state.active.Some? ==> FilesOf(d, d.state.active.value) == NO_FILES)
  }

  /** A call was made with every gate open on weights worth publishing. */
  ghost predicate Authorised(c: Call) {
    AllGatesOpen(c.inputs) && c.plan.reason.None? && !AllWeightsZero(c.plan)
  }

  ghost predicate Pending(s: RuntimeState, e: int) {
    s.active == Some(e) && (s.phase == Some(WeightsSubmitting) || s.phase == Some(Committed))
  }

  ghost predicate CallInv(d: Disk, h: Hist) {
    && (forall i, j :: 0 <= i < j < |h.calls| ==> h.calls[i].epoch != h.calls[j].epoch)
    && (forall i :: 0 <= i < |h.calls| ==>
          && Authorised(h.calls[i])
          && FilesOf(d, h.calls[i].epoch).attempt.Some?
          && (Pending(d.state, h.calls[i].epoch) || h.calls[i].epoch in h.commits))
  }

  ghost predicate NotCalled(h: Hist, e: int) {
    forall i :: 0 <= i < |h.calls| ==> h.calls[i].epoch != e
  }

  function EmaOf(f: Files): Ema {
    match f.snapshot case None => map[] case Some(ema) => ema
  }

  /** The average committed before the i-th commit. */
  function BaseAt(d: Disk, h: Hist, i: nat): Ema
    requires i <= |h.commits|
  {
    if i == 0 then map[] else EmaOf(FilesOf(d, h.commits[i - 1]))
  }

  function SetupOf(h: Hist, e: int): Setup {
    if e in h.setups then h.setups[e] else NO_SETUP
  }

  /** The weights epoch e yields from the rows in the log. */
  function PlanFor(cfg: Config, d: Disk, h: Hist, base: Ema, e: int): WeightsPlan {
    cfg.plan(base, SetupOf(h, e), RowsOf(d.rows, e))
  }

  ghost predicate CommittedOk(cfg: Config, d: Disk, h: Hist, i: nat)
    requires i < |h.commits|
  {
    var e := h.commits[i];
    && 1 <= e < d.state.nextEpochId
    && (d.state.active.Some? && d.state.phase != Some(Committed) ==> e < d.state.active.value)
    && Verify(cfg.sha, FilesOf(d, e), e).Ok?
    && EmaOf(FilesOf(d, e)) == PlanFor(cfg, d, h, BaseAt(d, h, i), e).ema
  }

  ghost predicate CommitInv(cfg: Config, d: Disk, h: Hist) {
    && Increasing(h.commits)
    && (forall i :: 0 <= i < |h.commits| ==> CommittedOk(cfg, d, h, i))
    && d.state.lastCompleted == (if h.commits == [] then None else Some(h.commits[|h.commits| - 1]))
    && (d.state.phase == Some(Committed) ==> h.commits != [] && d.state.active == Some(h.commits[|h.commits| - 1]))
  }

  function Base(d: Disk, h: Hist): Ema {
    BaseAt(d, h, |h.commits|)
  }

  /** The rolling average is the last committed one, except between the last two writes of a commit. */
  ghost predicate RollingInv(d: Disk, h: Hist) {
    || d.rolling == Base(d, h)
    || (&& d.state.phase == Some(WeightsSubmitting) && d.state.active.Some?
        && FilesOf(d, d.state.active.value).marker.Some?
        && d.rolling == EmaOf(FilesOf(d, d.state.active.value)))
  }

  /** The files an epoch in weights_submitting can have. */
  ghost predicate PendingFiles(sha: Sha, e: int, f: Files) {
    && (f.attempt.None? && f.receipt.Some? ==> f.receipt.value.epochId == e && DiscardableMode(f.receipt.value.mode))
    && (f.attempt.Some? ==>
        && f.attempt.value.epochId == e && f.attempt.value.liveAttempt && !f.attempt.value.status.Unknown?
        && (f.receipt.Some? ==> f.receipt.value.mode == Submitted && f.receipt.value.epochId == e)
        && (!f.attempt.value.status.Completed? ==> f.marker.None?))
    && (f.marker.Some? ==> Verify(sha, f, e).Ok?)
  }

  ghost predicate PendingInv(cfg: Config, d: Disk, h: Hist) {
    d.state.phase == Some(WeightsSubmitting) && d.state.active.Some? ==>
      var e := d.state.active.value;
      && PendingFiles(cfg.sha, e, FilesOf(d, e))
      && (FilesOf(d, e).marker.Some? ==> EmaOf(FilesOf(d, e)) == PlanFor(cfg, d, h, Base(d, h), e).ema)
  }

  ghost predicate RowsAreActive(d: Disk, h: Hist, e: int) {
    forall i :: 0 <= i < |RowsOf(d.rows, e)| ==> RowsOf(d.rows, e)[i].hotkey in SetupOf(h, e).active
  }

  ghost predicate Planned(cfg: Config, plan: WeightsPlan, setup: Setup, outcomes: seq<Outcome>) {
    exists previous: Ema :: plan == cfg.plan(previous, setup, outcomes)
  }

  /** A weights artifact records what the log's rows for that epoch yield. */
  ghost predicate ArtifactOk(cfg: Config, d: Disk, h: Hist, e: int) {
    && RowsAreActive(d, h, e)
    && (FilesOf(d, e).weights.Some? ==>
        var w := FilesOf(d, e).weights.value;
        && w.epochId == e && w.quota == SetupOf(h, e).quota
        && Planned(cfg, w.plan, SetupOf(h, e), RowsOf(d.rows, e)))
  }

  ghost predicate ArtifactInv(cfg: Config, d: Disk, h: Hist) {
    forall e :: ArtifactOk(cfg, d, h, e)
  }

  ghost predicate DiskInv(cfg: Config, d: Disk, h: Hist) {
    && Validates(d.state)
    && AllocInv(d, h) && EvalInv(d, h) && FreshInv(d)
    && CallInv(d, h) && CommitInv(cfg, d, h) && RollingInv(d, h)
    && PendingInv(cfg, d, h) && ArtifactInv(cfg, d, h)
  }

  /******* The process holding the lock *******/

  ghost predicate Owns(s: RuntimeState, e: int, phase: Phase) {
    s.active == Some(e) && s.phase == Some(phase)
  }

  function OpenAttempt(e: int): Files {
    NO_FILES.(attempt := Some(Attempt(e, true, Started, None)))
  }

  function Marked(cfg: Config, e: int, quota: nat, plan: WeightsPlan, result: ChainResult): Files {
    var f := CompleteFiles(e, quota, plan, result);
    match BuildMarker(cfg.sha, f, e, result) case Err(_) => f case Ok(m) => f.(marker := Some(m))
  }

  /** The exact files of the epoch at each point of weights_submitting. */
  function FilesAt(cfg: Config, l: Local): Files {
    var e := l.epoch;
    match l.pc
    case AttemptOpen => OpenAttempt(e)
    case Accepted => OpenAttempt(e)
    case ReceiptDone => OpenAttempt(e).(receipt := Some(Receipt(e, Submitted, l.result.reason)))
    case AttemptDone => SettledFiles(e, l.result)
    case ChainDone => SettledFiles(e, l.result)
    case SnapshotDone => WithSnapshot(SettledFiles(e, l.result), l.plan)
    case PanelDone => WithPanel(WithSnapshot(SettledFiles(e, l.result), l.plan), e)
    case WeightsDone => CompleteFiles(e, l.setup.quota, l.plan, l.result)
    case Abandoning => CompleteFiles(e, l.setup.quota, l.plan, l.result)
    case MarkerDone => Marked(cfg, e, l.setup.quota, l.plan, l.result)
    case RollingDone => Marked(cfg, e, l.setup.quota, l.plan, l.result)
    case CommitRollingDone => Marked(cfg, e, l.setup.quota, l.plan, l.result)
    case _ => NO_FILES
  }

  predicate Live(pc: Pc) {
    pc.AttemptOpen? || pc.Accepted? || pc.ReceiptDone? || pc.AttemptDone?
  }

  predicate HasMarker(pc: Pc) {
    pc.MarkerDone? || pc.RollingDone? || pc.CommitRollingDone?
  }

  predicate HasResult(pc: Pc) {
    pc.ChainDone? || pc.SnapshotDone? || pc.PanelDone? || pc.WeightsDone? || pc.Abandoning? || HasMarker(pc)
  }

  predicate Publishing(pc: Pc) {
    pc.Submitting? || Live(pc) || HasResult(pc)
  }

  ghost predicate PublishingHere(cfg: Config, d: Disk, h: Hist, l: Local) {
    var e := l.epoch;
    && Owns(d.state, e, WeightsSubmitting)
    && l.setup == SetupOf(h, e)
    && l.plan == PlanFor(cfg, d, h, Base(d, h), e)
    && FilesOf(d, e) == FilesAt(cfg, l)
    && (l.pc.AttemptOpen? ==> NotCalled(h, e) && Authorised(Call(e, l.inputs, l.plan)))
    && (Live(l.pc) ==> l.result == ChainResult(Submitted, l.result.reason, Some(e)))
    && (HasResult(l.pc) ==> CarriesReceipt(e, l.result))
    && (l.pc.Abandoning? ==> !Recoverable(l.result.mode))
    && (HasMarker(l.pc) ==> Recoverable(l.result.mode))
    && (l.pc.CommitRollingDone? ==> d.rolling == EmaOf(FilesOf(d, e)))
  }

  /** The process's memory agrees with the disk. */
  ghost predicate Here(cfg: Config, d: Disk, h: Hist, l: Local) {
    var e, s := l.epoch, d.state;
    match l.pc
    case Advancing => s.active.None?
    case Entered => Owns(s, e, Allocated)
    case Polled => Owns(s, e, Querying)
    case Scoring => Owns(s, e, Evaluating) && l.setup == SetupOf(h, e) && l.outcomes == RowsOf(d.rows, e)
    case Unwinding =>
      && Owns(s, e, WeightsSubmitting)
      && var f := FilesOf(d, e);
        f.attempt.Some? && f.marker.None? && f.weights.None?
    case RecoverRollingDone =>
      Owns(s, e, WeightsSubmitting) && FilesOf(d, e).marker.Some? && d.rolling == EmaOf(FilesOf(d, e))
    case _ => Publishing(l.pc) ==> PublishingHere(cfg, d, h, l)
  }

  ghost predicate ViewInv(cfg: Config, v: View) {
    DiskInv(cfg, v.disk, v.hist) && Here(cfg, v.disk, v.hist, v.me)
  }

  /** What later steps may never undo. */
  ghost predicate Extends(d: Disk, h: Hist, d': Disk, h': Hist) {
    && h.allocs <= h'.allocs && h.evaluated <= h'.evaluated && h.calls <= h'.calls && h.commits <= h'.commits
    && (forall i :: 0 <= i < |h.commits| ==> FilesOf(d', h.commits[i]) == FilesOf(d, h.commits[i]))
  }

  /******* Frames *******/

  /** Committed epochs keep their files and rows, so they stay well formed. */
  lemma CommitsFramed(cfg: Config, d: Disk, h: Hist, d': Disk, h': Hist)
    requires CommitInv(cfg, d, h) && h'.commits == h.commits && d'.state.nextEpochId >= d.state.nextEpochId
    requires forall i :: 0 <= i < |h.commits| ==>
      var e := h.commits[i];
      && FilesOf(d', e) == FilesOf(d, e) && RowsOf(d'.rows, e) == RowsOf(d.rows, e) && SetupOf(h', e) == SetupOf(h, e)
      && (d'.state.active.Some? && d'.state.phase != Some(Committed) ==> e < d'.state.active.value)
    requires d'.state.lastCompleted == d.state.lastCompleted
    requires d'.state.phase == Some(Committed) ==> d.state.phase == Some(Committed) && d'.state.active == d.state.active
    ensures CommitInv(cfg, d', h') && Base(d', h') == Base(d, h)
  {
    forall i | 0 <= i < |h.commits| ensures CommittedOk(cfg, d', h', i) {
      assert CommittedOk(cfg, d, h, i);
      assert i > 0 ==> CommittedOk(cfg, d, h, i - 1);
    }
  }

  /** With the same log and files, changing only the state or the rolling average keeps artifacts well formed. */
  lemma ArtifactsFramed(cfg: Config, d: Disk, h: Hist, d': Disk, h': Hist)
    requires ArtifactInv(cfg, d, h) && d'.epochs == d.epochs && d'.rows == d.rows
    requires forall e :: (RowsOf(d.rows, e) == [] && FilesOf(d, e).weights.None?) || SetupOf(h', e) == SetupOf(h, e)
    ensures ArtifactInv(cfg, d', h')
  {
    forall e ensures ArtifactOk(cfg, d', h', e) {
      assert FilesOf(d', e) == FilesOf(d, e);
      assert ArtifactOk(cfg, d, h, e);
    }
  }

  /******* Disk steps *******/

  /** Giving up the active epoch, which has neither an attempt nor a marker. */
  lemma Release(cfg: Config, d: Disk, h: Hist, error: string)
    requires DiskInv(cfg, d, h)
    requires d.state.active.Some? && d.state.phase != Some(Committed)
    requires FilesOf(d, d.state.active.value).attempt.None? && FilesOf(d, d.state.active.value).marker.None?
    requires !(d.state.phase == Some(Allocated) || d.state.phase == Some(Querying))
    ensures var d' := d.(state := ReleaseEpoch(d.state, error));
      DiskInv(cfg, d', h) && Extends(d, h, d', h)
  {
    var d' := d.(state := ReleaseEpoch(d.state, error));
    forall e ensures FilesOf(d', e) == FilesOf(d, e) {}
    CommitsFramed(cfg, d, h, d', h);
    ArtifactsFramed(cfg, d, h, d', h);
  }

  /** Allocation, from no active epoch, a committed one or one interrupted while evaluating. */
  lemma Allocation(cfg: Config, d: Disk, h: Hist, next: RuntimeState)
    requires DiskInv(cfg, d, h)
    requires d.state.phase.None? || d.state.phase == Some(Committed)
    requires next == AllocateFrom(d.state)
    ensures var h' := h.(allocs := h.allocs + [d.state.nextEpochId]);
      DiskInv(cfg, d.(state := next), h') && Extends(d, h, d.(state := next), h')
  {
    var d', h' := d.(state := next), h.(allocs := h.allocs + [d.state.nextEpochId]);
    forall e ensures FilesOf(d', e) == FilesOf(d, e) {}
    forall i | 0 <= i < |h.commits| ensures h.commits[i] < d.state.nextEpochId { assert CommittedOk(cfg, d, h, i); }
    CommitsFramed(cfg, d, h, d', h');
    ArtifactsFramed(cfg, d, h, d', h');
  }

  /** Retry, querying, evaluating and weights_submitting: the active epoch moves on. */
  lemma PhaseMove(cfg: Config, d: Disk, h: Hist, next: RuntimeState)
    requires DiskInv(cfg, d, h)
    requires d.state.active.Some? && next == d.state.(phase := next.phase, attempt := next.attempt)
    requires next.attempt >= 1
    requires || ((d.state.phase == Some(Allocated) || d.state.phase == Some(Querying))
                 && (next.phase == Some(Allocated) || next.phase == Some(Querying)))
             || (d.state.phase == Some(Evaluating) && next.phase == Some(WeightsSubmitting))
    ensures DiskInv(cfg, d.(state := next), h) && Extends(d, h, d.(state := next), h)
  {
    var d' := d.(state := next);
    forall e ensures FilesOf(d', e) == FilesOf(d, e) {}
    forall i | 0 <= i < |h.commits| ensures h.commits[i] < d.state.active.value { assert CommittedOk(cfg, d, h, i); }
    CommitsFramed(cfg, d, h, d', h);
    ArtifactsFramed(cfg, d, h, d', h);
  }

  lemma EnterEvaluation(cfg: Config, d: Disk, h: Hist, next: RuntimeState, setup: Setup)
    requires DiskInv(cfg, d, h) && d.state.active.Some?
    requires d.state.phase == Some(Allocated) || d.state.phase == Some(Querying)
    requires next == d.state.(phase := Some(Evaluating))
    ensures var e := d.state.active.value;
      var h' := h.(evaluated := h.evaluated + [e], setups := h.setups[e := setup]);
      DiskInv(cfg, d.(state := next), h') && Extends(d, h, d.(state := next), h')
  {
    var e := d.state.active.value;
    var d', h' := d.(state := next), h.(evaluated := h.evaluated + [e], setups := h.setups[e := setup]);
    assert Untouched(d.state, e);
    forall x ensures FilesOf(d', x) == FilesOf(d, x) {}
    assert FilesOf(d, e) == NO_FILES && RowsOf(d.rows, e) == [];
    forall i | 0 <= i < |h.evaluated| ensures h.evaluated[i] < e {}
    forall i | 0 <= i < |h.commits| ensures h.commits[i] < e { assert CommittedOk(cfg, d, h, i); }
    CommitsFramed(cfg, d, h, d', h');
    ArtifactsFramed(cfg, d, h, d', h');
  }

  function Appended(d: Disk, e: int, o: Outcome): Disk {
    d.(rows := d.rows + [Row(e, o)])
  }

  /** Artifacts only record finished epochs, so a new row of an evaluating one disturbs none. */
  lemma ArtifactsAppended(cfg: Config, d: Disk, h: Hist, e: int, o: Outcome)
    requires ArtifactInv(cfg, d, h) && FilesOf(d, e) == NO_FILES && o.hotkey in SetupOf(h, e).active
    ensures ArtifactInv(cfg, Appended(d, e, o), h)
  {
    forall x ensures ArtifactOk(cfg, Appended(d, e, o), h, x) {
      assert ArtifactOk(cfg, d, h, x);
      assert FilesOf(Appended(d, e, o), x) == FilesOf(d, x);
      RowsOfAppend(d.rows, Row(e, o), x);
    }
  }

  lemma AppendRow(cfg: Config, d: Disk, h: Hist, o: Outcome)
    requires DiskInv(cfg, d, h) && d.state.active.Some? && d.state.phase == Some(Evaluating)
    requires o.hotkey in SetupOf(h, d.state.active.value).active
    ensures var d' := Appended(d, d.state.active.value, o);
      DiskInv(cfg, d', h) && Extends(d, h, d', h)
  {
    var e := d.state.active.value;
    var d' := Appended(d, e, o);
    ArtifactsAppended(cfg, d, h, e, o);
    forall x ensures FilesOf(d', x) == FilesOf(d, x) {}
    forall x ensures RowsOf(d'.rows, x) == RowsOf(d.rows, x) + (if x == e then [o] else []) {
      RowsOfAppend(d.rows, Row(e, o), x);
    }
    forall i | 0 <= i < |h.commits| ensures h.commits[i] < e { assert CommittedOk(cfg, d, h, i); }
    CommitsFramed(cfg, d, h, d', h);
    assert !Untouched(d.state, e);
  }

  /** A write to the files of the epoch in weights_submitting. */
  lemma WritePending(cfg: Config, d: Disk, h: Hist, f: Files)
    requires DiskInv(cfg, d, h) && d.state.active.Some? && d.state.phase == Some(WeightsSubmitting)
    requires d.rolling == Base(d, h)
    requires PendingFiles(cfg.sha, d.state.active.value, f)
    requires FilesOf(d, d.state.active.value).attempt.Some? ==> f.attempt.Some?
    requires f.marker.Some? ==> EmaOf(f) == PlanFor(cfg, d, h, Base(d, h), d.state.active.value).ema
    requires f.weights.Some? ==>
      f.weights.value.epochId == d.state.active.value && f.weights.value.quota == SetupOf(h, d.state.active.value).quota
      && f.weights.value.plan == PlanFor(cfg, d, h, Base(d, h), d.state.active.value)
    ensures var d' := WithFiles(d, d.state.active.value, f);
      DiskInv(cfg, d', h) && Extends(d, h, d', h) && Base(d', h) == Base(d, h)
  {
    var e := d.state.active.value;
    var d' := WithFiles(d, e, f);
    forall x ensures FilesOf(d', x) == if x == e then f else FilesOf(d, x) {}
    forall i | 0 <= i < |h.commits| ensures h.commits[i] < e { assert CommittedOk(cfg, d, h, i); }
    CommitsFramed(cfg, d, h, d', h);
    assert !Untouched(d.state, e);
    forall x ensures ArtifactOk(cfg, d', h, x) {
      assert ArtifactOk(cfg, d, h, x);
    }
  }

  lemma RecordCall(cfg: Config, d: Disk, h: Hist, c: Call)
    requires DiskInv(cfg, d, h) && Owns(d.state, c.epoch, WeightsSubmitting)
    requires FilesOf(d, c.epoch).attempt.Some? && NotCalled(h, c.epoch) && Authorised(c)
    ensures var h' := h.(calls := h.calls + [c]);
      DiskInv(cfg, d, h') && Extends(d, h, d, h') && Base(d, h') == Base(d, h)
  {
    var h' := h.(calls := h.calls + [c]);
    forall i | 0 <= i < |h.commits| ensures h.commits[i] < c.epoch { assert CommittedOk(cfg, d, h, i); }
    CommitsFramed(cfg, d, h, d, h');
    ArtifactsFramed(cfg, d, h, d, h');
  }

  /** Publishing the pending epoch's average once its marker is durable. */
  lemma PublishPending(cfg: Config, d: Disk, h: Hist)
    requires DiskInv(cfg, d, h) && d.state.active.Some? && d.state.phase == Some(WeightsSubmitting)
    requires FilesOf(d, d.state.active.value).marker.Some?
    ensures var d' := d.(rolling := EmaOf(FilesOf(d, d.state.active.value)));
      DiskInv(cfg, d', h) && Extends(d, h, d', h) && Base(d', h) == Base(d, h)
  {
    var d' := d.(rolling := EmaOf(FilesOf(d, d.state.active.value)));
    forall x ensures FilesOf(d', x) == FilesOf(d, x) {}
    forall i | 0 <= i < |h.commits| ensures h.commits[i] < d.state.active.value { assert CommittedOk(cfg, d, h, i); }
    CommitsFramed(cfg, d, h, d', h);
    ArtifactsFramed(cfg, d, h, d', h);
  }

  /** A pending epoch with a marker and no unsettled attempt commits with its snapshot. */
  lemma PendingCommit(cfg: Config, d: Disk, h: Hist)
    requires DiskInv(cfg, d, h) && d.state.active.Some? && d.state.phase == Some(WeightsSubmitting)
    requires FilesOf(d, d.state.active.value).marker.Some?
    ensures var e := d.state.active.value;
      && CommitFromCompletion(cfg.sha, d, e).Ok?
      && CommitFromCompletion(cfg.sha, d, e).value.rolling == EmaOf(FilesOf(d, e))
      && TransitionTo(cfg.sha, d, e, Committed) == CommitTo(CommitFromCompletion(cfg.sha, d, e).value)
      && Recover(cfg.sha, d) == CommitFromCompletion(cfg.sha, d, e)
  {
  }

  lemma CommitStep(cfg: Config, d: Disk, h: Hist)
    requires DiskInv(cfg, d, h) && d.state.active.Some? && d.state.phase == Some(WeightsSubmitting)
    requires FilesOf(d, d.state.active.value).marker.Some? && d.rolling == EmaOf(FilesOf(d, d.state.active.value))
    requires CommitFromCompletion(cfg.sha, d, d.state.active.value).Ok?
    ensures var d' := d.(state := CommitFromCompletion(cfg.sha, d, d.state.active.value).value.next);
      var h' := h.(commits := h.commits + [d.state.active.value]);
      DiskInv(cfg, d', h') && Extends(d, h, d', h')
  {
    var e := d.state.active.value;
    var d' := d.(state := CommitFromCompletion(cfg.sha, d, e).value.next);
    var h' := h.(commits := h.commits + [e]);
    forall x ensures FilesOf(d', x) == FilesOf(d, x) {}
    forall i | 0 <= i < |h.commits| ensures h.commits[i] < e { assert CommittedOk(cfg, d, h, i); }
    forall i | 0 <= i < |h'.commits| ensures CommittedOk(cfg, d', h', i) {
      if i < |h.commits| { assert CommittedOk(cfg, d, h, i); }
      assert BaseAt(d', h', i) == BaseAt(d, h, i);
    }
    ArtifactsFramed(cfg, d, h, d', h');
    assert e in h'.commits;
    forall i | 0 <= i < |h.calls| ensures Pending(d'.state, h.calls[i].epoch) || h.calls[i].epoch in h'.commits {
      assert h.calls[i].epoch in h.commits ==> h.calls[i].epoch in h'.commits;
    }
  }

  /******* Process steps *******/

  ghost predicate Kept(cfg: Config, v: View, v': View) {
    ViewInv(cfg, v') && Extends(v.disk, v.hist, v'.disk, v'.hist)
  }

  lemma DecideKeeps(cfg: Config, v: View)
    requires ViewInv(cfg, v) && v.me.pc.Deciding? && !Begin(v.disk).Allocate?
    ensures Kept(cfg, v, ActBegin(v))
  {
    var d, h := v.disk, v.hist;
    match Begin(d)
    case Refuse(_) =>
    case FailStale(next) => Release(cfg, d, h, ReceiptTag(FilesOf(d, d.state.active.value).receipt.value.mode));
    case Retry(next) => PhaseMove(cfg, d, h, next);
  }

  lemma AllocateKeeps(cfg: Config, v: View)
    requires ViewInv(cfg, v) && v.me.pc.Deciding? && Begin(v.disk).Allocate?
    ensures Kept(cfg, v, ActBegin(v))
  {
    var d, h, next := v.disk, v.hist, Begin(v.disk).next;
    if d.state.phase == Some(Evaluating) {
      var error := "interrupted_during_evaluation";
      Release(cfg, d, h, error);
      Allocation(cfg, d.(state := ReleaseEpoch(d.state, error)), h, next);
    } else {
      assert d.state.phase.None? || d.state.phase.value.Committed?;
      Allocation(cfg, d, h, next);
    }
  }

  lemma AdvanceKeeps(cfg: Config, v: View)
    requires ViewInv(cfg, v) && !v.me.pc.Deciding?
    ensures Kept(cfg, v, ActBegin(v))
  {
    if v.me.pc.Advancing? {
      Allocation(cfg, v.disk, v.hist, AllocateFrom(v.disk.state));
    }
  }

  lemma QueryKeeps(cfg: Config, v: View)
    requires ViewInv(cfg, v)
    ensures Kept(cfg, v, ActQuery(cfg, v))
  {
    if v.me.pc.Entered? {
      PhaseMove(cfg, v.disk, v.hist, v.disk.state.(phase := Some(Querying)));
    }
  }

  lemma EvaluateStep(cfg: Config, v: View, setup: Setup)
    requires Validates(v.disk.state) && v.disk.state.active == Some(v.me.epoch)
    requires (v.me.pc.Entered? && v.disk.state.phase == Some(Allocated))
             || (v.me.pc.Polled? && v.disk.state.phase == Some(Querying))
    ensures ActEvaluate(cfg, v, setup)
         == WriteStateThen(v.(hist := v.hist.(evaluated := v.hist.evaluated + [v.me.epoch],
                                              setups := v.hist.setups[v.me.epoch := setup]),
                              me := v.me.(setup := setup, outcomes := [])),
                           v.disk.state.(phase := Some(Evaluating)), Pc.Scoring)
  {
  }

  lemma EvaluatedKeeps(cfg: Config, v: View, setup: Setup)
    requires ViewInv(cfg, v) && (v.me.pc.Entered? || v.me.pc.Polled?)
    ensures Kept(cfg, v, ActEvaluate(cfg, v, setup))
  {
    EvaluateStep(cfg, v, setup);
    EnterEvaluation(cfg, v.disk, v.hist, v.disk.state.(phase := Some(Evaluating)), setup);
    assert Untouched(v.disk.state, v.me.epoch);
  }

  lemma EvaluateKeeps(cfg: Config, v: View, setup: Setup)
    requires ViewInv(cfg, v)
    ensures Kept(cfg, v, ActEvaluate(cfg, v, setup))
  {
    if v.me.pc.Entered? || v.me.pc.Polled? {
      EvaluatedKeeps(cfg, v, setup);
    } else {
      assert ActEvaluate(cfg, v, setup) == v;
      NothingKeeps(cfg, v);
    }
  }

  lemma AppendKeeps(cfg: Config, v: View, o: Outcome)
    requires ViewInv(cfg, v)
    ensures Kept(cfg, v, ActAppend(v, o))
  {
    if v.me.pc.Scoring? && o.hotkey in v.me.setup.active {
      AppendRow(cfg, v.disk, v.hist, o);
      RowsOfAppend(v.disk.rows, Row(v.me.epoch, o), v.me.epoch);
    }
  }

  lemma ScoreStep(cfg: Config, v: View)
    requires v.me.pc.Scoring? && Validates(v.disk.state) && Owns(v.disk.state, v.me.epoch, Evaluating)
    ensures ActScore(cfg, v)
         == WriteStateThen(v.(me := v.me.(plan := cfg.plan(v.disk.rolling, v.me.setup, v.me.outcomes))),
                           v.disk.state.(phase := Some(WeightsSubmitting)), Submitting)
  {
  }

  /** Nothing is being published while an epoch evaluates: its plan starts from the committed average. */
  lemma EvaluatingPlan(cfg: Config, v: View)
    requires ViewInv(cfg, v) && v.me.pc.Scoring?
    ensures cfg.plan(v.disk.rolling, v.me.setup, v.me.outcomes)
         == PlanFor(cfg, v.disk, v.hist, Base(v.disk, v.hist), v.me.epoch)
    ensures FilesOf(v.disk, v.me.epoch) == NO_FILES
  {
  }

  lemma ScoredKeeps(cfg: Config, v: View)
    requires ViewInv(cfg, v) && v.me.pc.Scoring?
    ensures Kept(cfg, v, ActScore(cfg, v))
  {
    ScoreStep(cfg, v);
    EvaluatingPlan(cfg, v);
    PhaseMove(cfg, v.disk, v.hist, v.disk.state.(phase := Some(WeightsSubmitting)));
  }

  lemma ScoreKeeps(cfg: Config, v: View)
    requires ViewInv(cfg, v)
    ensures Kept(cfg, v, ActScore(cfg, v))
  {
    if v.me.pc.Scoring? {
      ScoredKeeps(cfg, v);
    } else {
      assert ActScore(cfg, v) == v;
      NothingKeeps(cfg, v);
    }
  }

  /** While an epoch is publishing, nothing has been published for it yet unless the marker exists. */
  lemma PublishingBase(cfg: Config, v: View)
    requires ViewInv(cfg, v) && Publishing(v.me.pc) && FilesAt(cfg, v.me).marker.None?
    ensures v.disk.rolling == Base(v.disk, v.hist)
  {
  }

  /** A step that writes nothing only has to keep the process's own memory right. */
  lemma MemoryOnly(cfg: Config, v: View, v': View)
    requires ViewInv(cfg, v) && v'.disk == v.disk && v'.hist == v.hist && Here(cfg, v.disk, v.hist, v'.me)
    ensures Kept(cfg, v, v')
  {
  }

  lemma NothingKeeps(cfg: Config, v: View)
    requires ViewInv(cfg, v)
    ensures Kept(cfg, v, v)
  {
  }

  lemma SettleKeeps(cfg: Config, v: View, a: Action)
    requires Here(cfg, v.disk, v.hist, v.me) && (a.UseNullChain? || a.UseForeign?)
    ensures var v' := ActChain(v, a);
      v'.disk == v.disk && v'.hist == v.hist && Here(cfg, v.disk, v.hist, v'.me)
  {
  }

  lemma NoCallWithoutAttempt(cfg: Config, d: Disk, h: Hist, e: int)
    requires DiskInv(cfg, d, h) && FilesOf(d, e).attempt.None?
    ensures NotCalled(h, e)
  {
  }

  /** A receipt for a call that was not made. */
  lemma SettledReceiptKeeps(cfg: Config, v: View, mode: Mode, reason: string)
    requires ViewInv(cfg, v) && v.me.pc.Submitting? && mode in {DryRun, Skipped, Error}
    ensures Kept(cfg, v, WriteFilesThen(v.(me := v.me.(result := ChainResult(mode, reason, Some(v.me.epoch)))),
                                        NO_FILES.(receipt := Some(Receipt(v.me.epoch, mode, reason))), ChainDone))
  {
    PublishingBase(cfg, v);
    WritePending(cfg, v.disk, v.hist, NO_FILES.(receipt := Some(Receipt(v.me.epoch, mode, reason))));
  }

  lemma SubtensorSettleKeeps(cfg: Config, v: View, inputs: ChainInputs)
    requires ViewInv(cfg, v) && v.me.pc.Submitting?
    requires Decide(inputs, v.me.plan.reason, AllWeightsZero(v.me.plan)).Settle?
    ensures Kept(cfg, v, ActChain(v, UseSubtensor(inputs)))
  {
    var decision := Decide(inputs, v.me.plan.reason, AllWeightsZero(v.me.plan));
    SettlesWithoutSubmitting(inputs, v.me.plan.reason, AllWeightsZero(v.me.plan));
    assert Mine(v) == NO_FILES;
    SettledReceiptKeeps(cfg, v, decision.mode, decision.reason);
  }

  lemma SubtensorLiveKeeps(cfg: Config, v: View, inputs: ChainInputs)
    requires ViewInv(cfg, v) && v.me.pc.Submitting?
    requires Decide(inputs, v.me.plan.reason, AllWeightsZero(v.me.plan)).GoLive?
    ensures Kept(cfg, v, ActChain(v, UseSubtensor(inputs)))
  {
    PublishingBase(cfg, v);
    GoesLiveIff(inputs, v.me.plan.reason, AllWeightsZero(v.me.plan));
    NoCallWithoutAttempt(cfg, v.disk, v.hist, v.me.epoch);
    WritePending(cfg, v.disk, v.hist, OpenAttempt(v.me.epoch));
  }

  lemma WriteReceiptKeeps(cfg: Config, v: View)
    requires ViewInv(cfg, v)
    ensures Kept(cfg, v, ActChain(v, WriteReceipt))
  {
    if v.me.pc.Accepted? {
      PublishingBase(cfg, v);
      WritePending(cfg, v.disk, v.hist,
                   OpenAttempt(v.me.epoch).(receipt := Some(Receipt(v.me.epoch, Submitted, v.me.result.reason))));
    } else {
      assert ActChain(v, WriteReceipt) == v;
      NothingKeeps(cfg, v);
    }
  }

  lemma CompletedKeeps(cfg: Config, v: View)
    requires ViewInv(cfg, v) && v.me.pc.ReceiptDone?
    ensures Kept(cfg, v, WriteFilesThen(v, SettledFiles(v.me.epoch, v.me.result), AttemptDone))
  {
    PublishingBase(cfg, v);
    WritePending(cfg, v.disk, v.hist, SettledFiles(v.me.epoch, v.me.result));
  }

  lemma CompleteAttemptKeeps(cfg: Config, v: View)
    requires ViewInv(cfg, v)
    ensures Kept(cfg, v, ActChain(v, CompleteAttempt))
  {
    if v.me.pc.ReceiptDone? {
      assert ActChain(v, CompleteAttempt) == WriteFilesThen(v, SettledFiles(v.me.epoch, v.me.result), AttemptDone);
      CompletedKeeps(cfg, v);
    } else {
      assert ActChain(v, CompleteAttempt) == v;
      NothingKeeps(cfg, v);
    }
  }

  lemma ReturnKeeps(cfg: Config, v: View, a: Action)
    requires Here(cfg, v.disk, v.hist, v.me) && (a.ReturnFromChain? || a.Handle?)
    ensures var v' := ActChain(v, a);
      v'.disk == v.disk && v'.hist == v.hist && Here(cfg, v.disk, v.hist, v'.me)
  {
  }

  lemma SetWeightsKeeps(cfg: Config, v: View, accepted: bool)
    requires ViewInv(cfg, v)
    ensures Kept(cfg, v, ActChain(v, SetWeights(accepted)))
  {
    if v.me.pc.AttemptOpen? {
      RecordCall(cfg, v.disk, v.hist, Call(v.me.epoch, v.me.inputs, v.me.plan));
    }
  }

  lemma MarkAmbiguousKeeps(cfg: Config, v: View)
    requires ViewInv(cfg, v)
    ensures Kept(cfg, v, ActChain(v, MarkAmbiguous))
  {
    if v.me.pc.Unwinding? {
      var e := v.me.epoch;
      WritePending(cfg, v.disk, v.hist, FilesOf(v.disk, e).(attempt := Some(Attempt(e, true, Ambiguous, None))));
    }
  }

  lemma SnapshotKeeps(cfg: Config, v: View)
    requires ViewInv(cfg, v) && v.me.pc.ChainDone?
    ensures Kept(cfg, v, ActPersist(cfg, v))
  {
    PublishingBase(cfg, v);
    WritePending(cfg, v.disk, v.hist, WithSnapshot(Mine(v), v.me.plan));
  }

  lemma PanelKeeps(cfg: Config, v: View)
    requires ViewInv(cfg, v) && v.me.pc.SnapshotDone?
    ensures Kept(cfg, v, ActPersist(cfg, v))
  {
    PublishingBase(cfg, v);
    WritePending(cfg, v.disk, v.hist, WithPanel(Mine(v), v.me.epoch));
  }

  lemma WeightsKeep(cfg: Config, v: View)
    requires ViewInv(cfg, v) && v.me.pc.PanelDone?
    ensures Kept(cfg, v, ActPersist(cfg, v))
  {
    PublishingBase(cfg, v);
    WritePending(cfg, v.disk, v.hist, WithWeights(Mine(v), v.me.epoch, v.me.setup.quota, v.me.plan, v.me.result));
  }

  lemma MarkedKeeps(cfg: Config, v: View)
    requires ViewInv(cfg, v) && v.me.pc.WeightsDone? && Recoverable(v.me.result.mode)
    ensures Kept(cfg, v, WriteFilesThen(
      v, Marked(cfg, v.me.epoch, v.me.setup.quota, v.me.plan, v.me.result), MarkerDone))
  {
    BuiltMarkerVerifies(cfg.sha, v.me.epoch, v.me.setup.quota, v.me.plan, v.me.result);
    PublishingBase(cfg, v);
    WritePending(cfg, v.disk, v.hist, Marked(cfg, v.me.epoch, v.me.setup.quota, v.me.plan, v.me.result));
  }

  lemma MarkerKeeps(cfg: Config, v: View)
    requires ViewInv(cfg, v) && v.me.pc.WeightsDone?
    ensures Kept(cfg, v, ActPersist(cfg, v))
  {
    if Recoverable(v.me.result.mode) {
      BuiltMarkerVerifies(cfg.sha, v.me.epoch, v.me.setup.quota, v.me.plan, v.me.result);
      MarkedKeeps(cfg, v);
    } else {
      assert ActPersist(cfg, v) == At(v, Abandoning);
      MemoryOnly(cfg, v, At(v, Abandoning));
    }
  }

  lemma RollingKeeps(cfg: Config, v: View)
    requires ViewInv(cfg, v) && v.me.pc.MarkerDone?
    ensures Kept(cfg, v, ActPersist(cfg, v))
  {
    BuiltMarkerVerifies(cfg.sha, v.me.epoch, v.me.setup.quota, v.me.plan, v.me.result);
    PublishPending(cfg, v.disk, v.hist);
  }

  lemma CommitRollingKeeps(cfg: Config, v: View)
    requires ViewInv(cfg, v) && v.me.pc.RollingDone?
    ensures Kept(cfg, v, ActCommit(cfg, v))
  {
    BuiltMarkerVerifies(cfg.sha, v.me.epoch, v.me.setup.quota, v.me.plan, v.me.result);
    PendingCommit(cfg, v.disk, v.hist);
    PublishPending(cfg, v.disk, v.hist);
  }

  /** The last write of a tick, spelled out. */
  lemma CommitStateStep(cfg: Config, v: View)
    requires ViewInv(cfg, v) && v.me.pc.CommitRollingDone?
    ensures CommitFromCompletion(cfg.sha, v.disk, v.me.epoch).Ok?
    ensures ActCommit(cfg, v) == Committing(v, CommitFromCompletion(cfg.sha, v.disk, v.me.epoch).value.next)
    ensures FilesOf(v.disk, v.me.epoch).marker.Some?
  {
    BuiltMarkerVerifies(cfg.sha, v.me.epoch, v.me.setup.quota, v.me.plan, v.me.result);
    PendingCommit(cfg, v.disk, v.hist);
  }

  lemma CommitStateKeeps(cfg: Config, v: View)
    requires ViewInv(cfg, v) && v.me.pc.CommitRollingDone?
    ensures Kept(cfg, v, ActCommit(cfg, v))
  {
    CommitStateStep(cfg, v);
    CommitStep(cfg, v.disk, v.hist);
  }

  /** Recovery can only get past its checks when the pending epoch has its marker. */
  lemma RecoverNeedsMarker(cfg: Config, d: Disk)
    requires Recover(cfg.sha, d).Ok?
    ensures d.state.active.Some? && d.state.phase == Some(WeightsSubmitting)
    ensures FilesOf(d, d.state.active.value).marker.Some?
  {
  }

  lemma RecoverRollingKeeps(cfg: Config, v: View)
    requires ViewInv(cfg, v) && v.me.pc.Recovering?
    ensures Kept(cfg, v, ActRecover(cfg, v))
  {
    if Recover(cfg.sha, v.disk).Ok? {
      RecoverNeedsMarker(cfg, v.disk);
      PendingCommit(cfg, v.disk, v.hist);
      PublishPending(cfg, v.disk, v.hist);
    }
  }

  lemma RecoverStateKeeps(cfg: Config, v: View)
    requires ViewInv(cfg, v) && v.me.pc.RecoverRollingDone?
    ensures Kept(cfg, v, ActRecover(cfg, v))
  {
    PendingCommit(cfg, v.disk, v.hist);
    CommitStep(cfg, v.disk, v.hist);
  }

  lemma AbandonKeeps(cfg: Config, v: View)
    requires ViewInv(cfg, v)
    ensures Kept(cfg, v, ActAbandon(v))
  {
    var error := IncompleteText(v.me.result);
    if v.me.pc.Abandoning? && FailWeights(v.disk, v.me.epoch, error).Ok? {
      Release(cfg, v.disk, v.hist, error);
    }
  }

  lemma ExitKeeps(cfg: Config, v: View, detail: Option<string>)
    requires ViewInv(cfg, v)
    ensures Kept(cfg, v, ActExit(v, detail))
  {
    var error := ExitText(detail);
    if v.me.pc.Exiting? && FailEvaluation(v.disk, v.me.epoch, error).Ok? {
      Release(cfg, v.disk, v.hist, error);
    }
  }

  lemma RaiseKeeps(cfg: Config, v: View)
    requires ViewInv(cfg, v)
    ensures Kept(cfg, v, ActRaise(v))
  {
    MemoryOnly(cfg, v, ActRaise(v));
  }

  lemma CallKeeps(cfg: Config, v: View, a: Action)
    requires ViewInv(cfg, v)
    requires a.SetWeights? || a.WriteReceipt? || a.CompleteAttempt? || a.MarkAmbiguous? || a.UseSubtensor?
    ensures Kept(cfg, v, ActChain(v, a))
  {
    match a
    case UseSubtensor(inputs) =>
      if !v.me.pc.Submitting? {
        MemoryOnly(cfg, v, v);
      } else if Decide(inputs, v.me.plan.reason, AllWeightsZero(v.me.plan)).Settle? {
        SubtensorSettleKeeps(cfg, v, inputs);
      } else {
        SubtensorLiveKeeps(cfg, v, inputs);
      }
    case SetWeights(accepted) => SetWeightsKeeps(cfg, v, accepted);
    case WriteReceipt => WriteReceiptKeeps(cfg, v);
    case CompleteAttempt => CompleteAttemptKeeps(cfg, v);
    case MarkAmbiguous => MarkAmbiguousKeeps(cfg, v);
  }

  lemma ActChainKeeps(cfg: Config, v: View, a: Action)
    requires ViewInv(cfg, v)
    ensures Kept(cfg, v, ActChain(v, a))
  {
    if a.SetWeights? || a.WriteReceipt? || a.CompleteAttempt? || a.MarkAmbiguous? || a.UseSubtensor? {
      CallKeeps(cfg, v, a);
    } else {
      if a.UseNullChain? || a.UseForeign? { SettleKeeps(cfg, v, a); }
      if a.ReturnFromChain? || a.Handle? { ReturnKeeps(cfg, v, a); }
      MemoryOnly(cfg, v, ActChain(v, a));
    }
  }

  lemma ActPersistKeeps(cfg: Config, v: View)
    requires ViewInv(cfg, v)
    ensures Kept(cfg, v, ActPersist(cfg, v))
  {
    if v.me.pc.ChainDone? {
      SnapshotKeeps(cfg, v);
    } else if v.me.pc.SnapshotDone? {
      PanelKeeps(cfg, v);
    } else if v.me.pc.PanelDone? {
      WeightsKeep(cfg, v);
    } else if v.me.pc.WeightsDone? {
      MarkerKeeps(cfg, v);
    } else if v.me.pc.MarkerDone? {
      RollingKeeps(cfg, v);
    } else {
      assert ActPersist(cfg, v) == v;
      NothingKeeps(cfg, v);
    }
  }

  lemma ActCommitKeeps(cfg: Config, v: View)
    requires ViewInv(cfg, v)
    ensures Kept(cfg, v, ActCommit(cfg, v))
  {
    if v.me.pc.RollingDone? {
      CommitRollingKeeps(cfg, v);
    } else if v.me.pc.CommitRollingDone? {
      CommitStateKeeps(cfg, v);
    } else {
      assert ActCommit(cfg, v) == v;
      NothingKeeps(cfg, v);
    }
  }

  lemma ActRecoverKeeps(cfg: Config, v: View)
    requires ViewInv(cfg, v)
    ensures Kept(cfg, v, ActRecover(cfg, v))
  {
    if v.me.pc.Recovering? {
      RecoverRollingKeeps(cfg, v);
    } else if v.me.pc.RecoverRollingDone? {
      RecoverStateKeeps(cfg, v);
    } else {
      assert ActRecover(cfg, v) == v;
      NothingKeeps(cfg, v);
    }
  }

  lemma ActBeginKeeps(cfg: Config, v: View)
    requires ViewInv(cfg, v)
    ensures Kept(cfg, v, ActBegin(v))
  {
    if !v.me.pc.Deciding? {
      AdvanceKeeps(cfg, v);
    } else if Begin(v.disk).Allocate? {
      AllocateKeeps(cfg, v);
    } else {
      DecideKeeps(cfg, v);
    }
  }

  lemma ActEvaluationKeeps(cfg: Config, v: View, a: Action)
    requires ViewInv(cfg, v) && (a.BeginTick? || a.Query? || a.Evaluate? || a.Append? || a.Score?)
    ensures Kept(cfg, v, Act(cfg, v, a))
  {
    match a
    case BeginTick => ActBeginKeeps(cfg, v);
    case Query => QueryKeeps(cfg, v);
    case Evaluate(setup) => EvaluateKeeps(cfg, v, setup);
    case Append(outcome) => AppendKeeps(cfg, v, outcome);
    case Score => ScoreKeeps(cfg, v);
  }

  lemma ActFinishKeeps(cfg: Config, v: View, a: Action)
    requires ViewInv(cfg, v)
    requires a.Persist? || a.CommitEpoch? || a.RecoverReceipt?
    ensures Kept(cfg, v, Act(cfg, v, a))
  {
    if a.Persist? {
      assert Act(cfg, v, a) == ActPersist(cfg, v);
      ActPersistKeeps(cfg, v);
    } else if a.CommitEpoch? {
      assert Act(cfg, v, a) == ActCommit(cfg, v);
      ActCommitKeeps(cfg, v);
    } else {
      assert Act(cfg, v, a) == ActRecover(cfg, v);
      ActRecoverKeeps(cfg, v);
    }
  }

  lemma ActLeaveKeeps(cfg: Config, v: View, a: Action)
    requires ViewInv(cfg, v) && (a.Abandon? || a.Raise? || a.Exit?)
    ensures Kept(cfg, v, Act(cfg, v, a))
  {
    if a.Abandon? {
      assert Act(cfg, v, a) == ActAbandon(v);
      AbandonKeeps(cfg, v);
    } else if a.Raise? {
      assert Act(cfg, v, a) == ActRaise(v);
      RaiseKeeps(cfg, v);
    } else {
      assert Act(cfg, v, a) == ActExit(v, a.detail);
      ExitKeeps(cfg, v, a.detail);
    }
  }

  lemma ActKeeps(cfg: Config, v: View, a: Action)
    requires ViewInv(cfg, v)
    ensures Kept(cfg, v, Act(cfg, v, a))
  {
    if a.BeginTick? || a.Query? || a.Evaluate? || a.Append? || a.Score? {
      ActEvaluationKeeps(cfg, v, a);
    } else if a.Persist? || a.CommitEpoch? || a.RecoverReceipt? {
      ActFinishKeeps(cfg, v, a);
    } else if a.Abandon? || a.Raise? || a.Exit? {
      ActLeaveKeeps(cfg, v, a);
    } else {
      ActChainKeeps(cfg, v, a);
    }
  }

  /******* All processes *******/

  /** At most one process is inside, it is the one holding the lock, and its memory is right. */
  ghost predicate LockInv(cfg: Config, w: World) {
    && (forall p :: p in w.procs && !w.procs[p].pc.Outside? ==>
          w.lock == Some(p) && Here(cfg, w.disk, w.hist, w.procs[p]))
    && (w.lock.Some? ==> w.lock.value in w.procs && !w.procs[w.lock.value].pc.Outside?)
  }

  ghost predicate Inv(cfg: Config, w: World) {
    DiskInv(cfg, w.disk, w.hist) && LockInv(cfg, w)
  }

  /** The lock holder's step, installed in the world. */
  lemma DoKeeps(cfg: Config, w: World, p: Pid, a: Action)
    requires Inv(cfg, w) && !LocalOf(w, p).pc.Outside?
    ensures Inv(cfg, Step(cfg, w, Do(p, a)))
    ensures Extends(w.disk, w.hist, Step(cfg, w, Do(p, a)).disk, Step(cfg, w, Do(p, a)).hist)
  {
    var v := View(w.disk, w.hist, LocalOf(w, p));
    ActKeeps(cfg, v, a);
    LockFollows(cfg, w, p, Act(cfg, v, a));
  }

  lemma LockFollows(cfg: Config, w: World, p: Pid, v: View)
    requires LockInv(cfg, w) && !LocalOf(w, p).pc.Outside? && Here(cfg, v.disk, v.hist, v.me)
    ensures LockInv(cfg, World(v.disk, if v.me.pc.Outside? then Unlock(w, p) else w.lock,
                               w.procs[p := if v.me.pc.Outside? then BLANK else v.me], v.hist))
  {
  }

  lemma EnterOrDie(cfg: Config, w: World, ev: Event)
    requires LockInv(cfg, w) && (ev.Do? ==> LocalOf(w, ev.pid).pc.Outside?)
    ensures LockInv(cfg, Step(cfg, w, ev))
    ensures Step(cfg, w, ev).disk == w.disk && Step(cfg, w, ev).hist == w.hist
  {
  }

  lemma StepKeeps(cfg: Config, w: World, ev: Event)
    requires Inv(cfg, w)
    ensures Inv(cfg, Step(cfg, w, ev))
    ensures Extends(w.disk, w.hist, Step(cfg, w, ev).disk, Step(cfg, w, ev).hist)
  {
    if ev.Do? && !LocalOf(w, ev.pid).pc.Outside? {
      DoKeeps(cfg, w, ev.pid, ev.action);
    } else {
      EnterOrDie(cfg, w, ev);
    }
  }

  lemma StartSatisfiesInv(cfg: Config)
    ensures Inv(cfg, START)
  {
    forall e ensures ArtifactOk(cfg, EMPTY_DISK, NO_HIST, e) {}
  }

  lemma {:induction false} RunKeeps(cfg: Config, w: World, events: seq<Event>)
    requires Inv(cfg, w)
    ensures Inv(cfg, Run(cfg, w, events))
    ensures Extends(w.disk, w.hist, Run(cfg, w, events).disk, Run(cfg, w, events).hist)
  {
    if events != [] {
      var before := Run(cfg, w, events[..|events| - 1]);
      RunKeeps(cfg, w, events[..|events| - 1]);
      StepKeeps(cfg, before, events[|events| - 1]);
      ExtendsIsTransitive(w.disk, w.hist, before.disk, before.hist,
                          Run(cfg, w, events).disk, Run(cfg, w, events).hist);
    }
  }

  lemma ExtendsIsTransitive(d: Disk, h: Hist, d': Disk, h': Hist, d'': Disk, h'': Hist)
    requires Extends(d, h, d', h') && Extends(d', h', d'', h'')
    ensures Extends(d, h, d'', h'')
  {
    forall i | 0 <= i < |h.commits| ensures FilesOf(d'', h.commits[i]) == FilesOf(d, h.commits[i]) {
      assert h.commits[i] == h'.commits[i];
    }
  }
}
