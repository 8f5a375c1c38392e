/**
 The durable runtime state and every decision `ValidatorStateStore` takes from the files
 alone (src/dolores_subnet/validator_state.py). Decisions are functions of the disk; the
 class in ValidatorStore and the processes in TickMachine carry them out.
 */
module RuntimeStates {
  import opened Common
  import opened Scoring
  import opened Replay
  import opened Chain
  import opened EpochFiles

  datatype Phase = Allocated | Querying | Evaluating | WeightsSubmitting | Committed

  const STATE_VERSION := 1

  /** `state.json` without its timestamp. A missing file reads as `FRESH`. */
  datatype RuntimeState = RuntimeState(version: int, nextEpochId: int, active: Option<int>, phase: Option<Phase>,
                                       attempt: int, lastCompleted: Option<int>, lastFailed: Option<int>,
                                       lastError: Option<string>, lastReceipt: Option<Completion>,
                                       lastSuccess: Option<Completion>)

  const FRESH := RuntimeState(STATE_VERSION, 1, None, None, 0, None, None, None, None, None)

  /** `ValidatorRuntimeState.validate`. */
  predicate Validates(s: RuntimeState) {
    && s.version == STATE_VERSION
    && s.nextEpochId >= 1
    && s.attempt >= 0
    && (s.active.None? <==> s.phase.None?)
    && (s.active.Some? ==> 1 <= s.active.value < s.nextEpochId && s.attempt >= 1)
    && (s.phase == Some(Committed) ==> s.lastCompleted == s.active)
  }

  /** Everything that survives a crash. A missing miner_state.json reads as the empty average. */
  datatype Disk = Disk(state: RuntimeState, epochs: map<int, Files>, rolling: Ema, rows: seq<Row>)

  const EMPTY_DISK := Disk(FRESH, map[], map[], [])

  function FilesOf(d: Disk, epochId: int): Files {
    if epochId in d.epochs then d.epochs[epochId] else NO_FILES
  }

  function WithFiles(d: Disk, epochId: int, f: Files): Disk {
    d.(epochs := d.epochs[epochId := f])
  }

  datatype StoreError = Corruption | AmbiguousSubmission | RecoveryRequired | NotActive | InvalidTransition

  /** `_raise_if_ambiguous_attempt`. */
  function AttemptBlock(f: Files, epochId: int): Option<StoreError> {
    match f.attempt
    case None => None
    case Some(a) =>
      if a.epochId != epochId || !a.liveAttempt || a.status.Unknown? then Some(Corruption)
      else if !a.status.Completed? then Some(AmbiguousSubmission)
      else None
  }

  function ReleaseEpoch(s: RuntimeState, error: string): RuntimeState {
    s.(active := None, phase := None, attempt := 0, lastFailed := s.active, lastError := Some(error))
  }

  function AllocateFrom(s: RuntimeState): RuntimeState {
    s.(nextEpochId := s.nextEpochId + 1, active := Some(s.nextEpochId), phase := Some(Allocated), attempt := 1)
  }

  /** What `_begin_locked` does: refuse, fail the interrupted epoch first, retry it, or allocate. */
  datatype BeginDecision = Refuse(error: StoreError) | FailStale(next: RuntimeState)
                         | Retry(next: RuntimeState) | Allocate(next: RuntimeState)

  predicate DiscardableMode(mode: Mode) {
    mode in {DryRun, Skipped, Error}
  }

  function ModeName(mode: Mode): string {
    match mode
    case DryRun => "dry_run"
    case Submitted => "submitted"
    case Fallback => "fallback"
    case Skipped => "skipped"
    case Error => "error"
    case Foreign(name) => name
  }

  function ReceiptTag(mode: Mode): string {
    "interrupted_after_" + ModeName(mode) + "_receipt_before_completion"
  }

  function Begin(d: Disk): BeginDecision {
    var s := d.state;
    if !Validates(s) then Refuse(Corruption)
    else if s.phase == Some(WeightsSubmitting) then BeginInterrupted(s, FilesOf(d, s.active.value))
    else if s.phase == Some(Allocated) || s.phase == Some(Querying) then
      Retry(s.(phase := Some(Allocated), attempt := s.attempt + 1))
    else if s.phase == Some(Evaluating) then Allocate(AllocateFrom(ReleaseEpoch(s, "interrupted_during_evaluation")))
    else Allocate(AllocateFrom(s))
  }

  /** A previous tick stopped while submitting weights: decide from that epoch's files. */
  function BeginInterrupted(s: RuntimeState, f: Files): BeginDecision
    requires s.active.Some?
  {
    var e := s.active.value;
    if AttemptBlock(f, e).Some? then Refuse(AttemptBlock(f, e).value)
    else if f.marker.Some? then Refuse(RecoveryRequired)
    else if f.receipt.None? then Refuse(AmbiguousSubmission)
    else if f.receipt.value.epochId != e then Refuse(Corruption)
    else if !DiscardableMode(f.receipt.value.mode) then Refuse(AmbiguousSubmission)
    else FailStale(ReleaseEpoch(s, ReceiptTag(f.receipt.value.mode)))
  }

  /** The two writes of a commit: the rolling average, then the state. */
  datatype Commit = Commit(rolling: Ema, next: RuntimeState)

  predicate ReceiptSucceeded(c: Completion) {
    c.mode.DryRun? || c.mode.Submitted?
  }

  /** `_commit_from_completion`. */
  function CommitFromCompletion(sha: Sha, d: Disk, epochId: int): Result<Commit, StoreError> {
    var f := FilesOf(d, epochId);
    if AttemptBlock(f, epochId).Some? then Err(AttemptBlock(f, epochId).value)
    else if f.marker.None? then Err(AmbiguousSubmission)
    else
      match Verify(sha, f, epochId)
      case Err(_) => Err(Corruption)
      case Ok(done) =>
        Ok(Commit(done.ema,
                  d.state.(phase := Some(Committed), lastCompleted := Some(epochId), lastError := None,
                           lastReceipt := Some(done),
                           lastSuccess := if ReceiptSucceeded(done) then Some(done) else d.state.lastSuccess)))
  }

  predicate Allowed(from: Phase, to: Phase) {
    match from
    case Allocated => to.Querying? || to.Evaluating?
    case Querying => to.Evaluating?
    case Evaluating => to.WeightsSubmitting?
    case WeightsSubmitting => to.Committed?
    case Committed => false
  }

  datatype Transition = Stay | Move(next: RuntimeState) | CommitTo(commit: Commit) | Deny(error: StoreError)

  /** `_transition_locked`. */
  function TransitionTo(sha: Sha, d: Disk, epochId: int, phase: Phase): Transition {
    var s := d.state;
    if !Validates(s) then Deny(Corruption)
    else if s.active != Some(epochId) || s.phase.None? then Deny(NotActive)
    else if s.phase == Some(phase) then Stay
    else if !Allowed(s.phase.value, phase) then Deny(InvalidTransition)
    else if phase.Committed? then
      match CommitFromCompletion(sha, d, epochId)
      case Err(error) => Deny(error)
      case Ok(commit) => CommitTo(commit)
    else Move(s.(phase := Some(phase)))
  }

  /** `_fail_evaluation_locked`. */
  function FailEvaluation(d: Disk, epochId: int, error: string): Result<RuntimeState, StoreError> {
    if !Validates(d.state) then Err(Corruption)
    else if d.state.active != Some(epochId) || d.state.phase != Some(Evaluating) then Err(NotActive)
    else Ok(ReleaseEpoch(d.state, error))
  }

  /** `_fail_weights_locked`. */
  function FailWeights(d: Disk, epochId: int, error: string): Result<RuntimeState, StoreError> {
    if !Validates(d.state) then Err(Corruption)
    else if d.state.active != Some(epochId) || d.state.phase != Some(WeightsSubmitting) then Err(NotActive)
    else if FilesOf(d, epochId).attempt.Some? then Err(AmbiguousSubmission)
    else Ok(ReleaseEpoch(d.state, error))
  }

  /** `recover_receipt`, up to its two writes. */
  function Recover(sha: Sha, d: Disk): Result<Commit, StoreError> {
    var s := d.state;
    if !Validates(s) then Err(Corruption)
    else if s.phase != Some(WeightsSubmitting) then Err(NotActive)
    else if AttemptBlock(FilesOf(d, s.active.value), s.active.value).Some? then
      Err(AttemptBlock(FilesOf(d, s.active.value), s.active.value).value)
    else CommitFromCompletion(sha, d, s.active.value)
  }

  /** Nothing but an operator can move this disk: no tick starts and no recovery commits. */
  predicate Stuck(sha: Sha, d: Disk) {
    Begin(d).Refuse? && Recover(sha, d).Err?
  }

  /******* What the decisions guarantee *******/

  /** Every state any operation writes passes `validate`, so no write is ever rejected. */
  lemma EveryWriteValidates(sha: Sha, d: Disk, epochId: int, phase: Phase, error: string)
    requires Validates(d.state)
    ensures Begin(d).FailStale? || Begin(d).Retry? || Begin(d).Allocate? ==> Validates(Begin(d).next)
    ensures Begin(d).FailStale? ==> Validates(AllocateFrom(Begin(d).next))
    ensures var t := TransitionTo(sha, d, epochId, phase);
      && (t.Move? ==> Validates(t.next))
      && (t.CommitTo? ==> Validates(t.commit.next))
    ensures FailEvaluation(d, epochId, error).Ok? ==> Validates(FailEvaluation(d, epochId, error).value)
    ensures FailWeights(d, epochId, error).Ok? ==> Validates(FailWeights(d, epochId, error).value)
    ensures Recover(sha, d).Ok? ==> Validates(Recover(sha, d).value.next)
  {
  }

  /** Where a phase stands in a tick. */
  function Rank(phase: Phase): nat {
    match phase
    case Allocated => 0
    case Querying => 1
    case Evaluating => 2
    case WeightsSubmitting => 3
    case Committed => 4
  }

  /** The next phase; a tick without a wire goes straight to its evaluation. */
  ghost predicate Follows(from: Phase, to: Phase) {
    Rank(to) == Rank(from) + 1 || (from == Allocated && to == Evaluating)
  }

  /** An attempt that is not there, or is this epoch's and completed. */
  ghost predicate Settled(f: Files, e: int) {
    f.attempt.Some? ==>
      f.attempt.value.epochId == e && f.attempt.value.liveAttempt && f.attempt.value.status == Completed
  }

  /** An attempt of this epoch that may or may not have reached the chain. */
  ghost predicate Unsettled(f: Files, e: int) {
    && f.attempt.Some? && f.attempt.value.epochId == e && f.attempt.value.liveAttempt
    && f.attempt.value.status in {Started, Ambiguous}
  }

  /** A transition is made to the next phase of the active epoch, and its last one only behind a verifying marker. */
  lemma TransitionIff(sha: Sha, d: Disk, e: int, phase: Phase)
    requires Validates(d.state)
    ensures var s, t := d.state, TransitionTo(sha, d, e, phase);
      && (t == Deny(NotActive) <==> s.active != Some(e))
      && (t == Stay <==> s.active == Some(e) && s.phase == Some(phase))
      && (t == Deny(InvalidTransition) <==>
            s.active == Some(e) && s.phase != Some(phase) && !Follows(s.phase.value, phase))
      && (t.Move? <==> s.active == Some(e) && phase != Committed && Follows(s.phase.value, phase))
      && (t.Move? ==> t.next == s.(phase := Some(phase)))
      && (t.CommitTo? <==> && s.active == Some(e) && s.phase == Some(WeightsSubmitting) && phase == Committed
                           && Settled(FilesOf(d, e), e) && Verify(sha, FilesOf(d, e), e).Ok?)
  {
  }

  /** A state no tick can have written. */
  ghost predicate Corrupt(s: RuntimeState) {
    || s.version != 1 || s.nextEpochId < 1 || s.attempt < 0
    || s.active.Some? != s.phase.Some?
    || (s.active.Some? && (s.active.value < 1 || s.active.value >= s.nextEpochId || s.attempt == 0))
    || (s.phase == Some(Committed) && s.lastCompleted != s.active)
  }

  /** Such a state, and no other, is refused as corrupt by every operation before it looks at anything else. */
  lemma CorruptionIsRefused(sha: Sha, d: Disk, e: int, error: string)
    ensures Corrupt(d.state) <==> !Validates(d.state)
    ensures Corrupt(d.state) ==>
      && Begin(d) == Refuse(Corruption) && Recover(sha, d) == Err(Corruption)
      && (forall phase :: TransitionTo(sha, d, e, phase) == Deny(Corruption))
    ensures FailEvaluation(d, e, error) == Err(Corruption) <==> Corrupt(d.state)
    ensures FailWeights(d, e, error) == Err(Corruption) <==> Corrupt(d.state)
  {
  }

  /** What a tick says to an epoch that stopped while submitting its weights, for any files it may have. */
  lemma BeginInterruptedSays(d: Disk)
    requires Validates(d.state) && d.state.phase == Some(WeightsSubmitting)
    ensures var e := d.state.active.value;
      var f := FilesOf(d, e);
      && (Begin(d) == Refuse(RecoveryRequired) <==> Settled(f, e) && f.marker.Some?)
      && (Begin(d) == Refuse(AmbiguousSubmission) <==>
            || Unsettled(f, e)
            || (Settled(f, e) && f.marker.None? && f.receipt.None?)
            || (Settled(f, e) && f.marker.None? && f.receipt.value.epochId == e
                && f.receipt.value.mode !in {DryRun, Skipped, Error}))
      && (Begin(d).FailStale? <==>
            && Settled(f, e) && f.marker.None? && f.receipt.Some? && f.receipt.value.epochId == e
            && f.receipt.value.mode in {DryRun, Skipped, Error})
      && (Begin(d) == Refuse(Corruption) <==>
            || (!Settled(f, e) && !Unsettled(f, e))
            || (Settled(f, e) && f.marker.None? && f.receipt.Some? && f.receipt.value.epochId != e))
  {
  }

  /** Recovery commits exactly behind a verifying marker and a settled attempt. */
  lemma RecoversIff(sha: Sha, d: Disk)
    requires Validates(d.state)
    ensures Recover(sha, d) == Err(NotActive) <==> d.state.phase != Some(WeightsSubmitting)
    ensures d.state.phase == Some(WeightsSubmitting) ==>
      var e := d.state.active.value;
      var f, r := FilesOf(d, e), Recover(sha, d);
      && (r.Ok? <==> Settled(f, e) && Verify(sha, f, e).Ok?)
      && (r == Err(AmbiguousSubmission) <==> Unsettled(f, e) || (Settled(f, e) && f.marker.None?))
      && (r == Err(Corruption) <==>
            (!Settled(f, e) && !Unsettled(f, e)) || (Settled(f, e) && f.marker.Some? && Verify(sha, f, e).Err?))
  {
  }

  /** The state once the active epoch has been given up. */
  function GivenUp(s: RuntimeState, error: string): RuntimeState {
    RuntimeState(s.version, s.nextEpochId, None, None, 0, s.lastCompleted, s.active, Some(error),
                 s.lastReceipt, s.lastSuccess)
  }

  /** Only the epoch now evaluating can be failed as such, and only a submitting one without an attempt file. */
  lemma FailsIff(d: Disk, e: int, error: string)
    requires Validates(d.state)
    ensures FailEvaluation(d, e, error)
         == if d.state.active == Some(e) && d.state.phase == Some(Evaluating) then Ok(GivenUp(d.state, error))
            else Err(NotActive)
    ensures FailWeights(d, e, error)
         == if d.state.active != Some(e) || d.state.phase != Some(WeightsSubmitting) then Err(NotActive)
            else if FilesOf(d, e).attempt.None? then Ok(GivenUp(d.state, error))
            else Err(AmbiguousSubmission)
  {
  }

  /** Recovery and the final transition of an uninterrupted tick make the same two writes. */
  lemma RecoverIsTheCommitTransition(sha: Sha, d: Disk, epochId: int)
    requires Validates(d.state) && d.state.active == Some(epochId) && d.state.phase == Some(WeightsSubmitting)
    ensures Recover(sha, d).Ok? <==> TransitionTo(sha, d, epochId, Committed).CommitTo?
    ensures Recover(sha, d).Ok? ==> TransitionTo(sha, d, epochId, Committed).commit == Recover(sha, d).value
  {
  }
}
