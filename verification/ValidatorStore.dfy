/** The imperative store (src/dolores_subnet/validator_state.py), proved against RuntimeStates. */
module ValidatorStore {
  import opened Common
  import opened Scoring
  import opened EpochFiles
  import opened RuntimeStates

  /** The disks `_begin_locked` leaves after each of its writes. */
  function BeginTrace(d: Disk): seq<Disk> {
    match Begin(d)
    case Refuse(_) => []
    case FailStale(next) => [d.(state := next), d.(state := AllocateFrom(next))]
    case Retry(next) => [d.(state := next)]
    case Allocate(next) => [d.(state := next)]
  }

  function BeginResult(d: Disk): Result<int, StoreError> {
    match Begin(d)
    case Refuse(error) => Err(error)
    case FailStale(next) => Ok(next.nextEpochId)
    case Retry(next) => if next.active.Some? then Ok(next.active.value) else Err(Corruption)
    case Allocate(next) => if next.active.Some? then Ok(next.active.value) else Err(Corruption)
  }

  /** Rolling average first, state second. */
  function CommitTrace(d: Disk, c: Commit): seq<Disk> {
    [d.(rolling := c.rolling), d.(rolling := c.rolling, state := c.next)]
  }

  function TransitionTrace(d: Disk, t: Transition): seq<Disk> {
    match t
    case Stay => []
    case Deny(_) => []
    case Move(next) => [d.(state := next)]
    case CommitTo(commit) => CommitTrace(d, commit)
  }

  function StateTrace(d: Disk, r: Result<RuntimeState, StoreError>): seq<Disk> {
    match r case Err(_) => [] case Ok(next) => [d.(state := next)]
  }

  /**
   `ValidatorStateStore` with the disk it owns. `trace` lists every disk a crash could leave
   behind: one entry per durable write, in order.
   */
  class ValidatorStateStore {
    const sha: Sha
    var disk: Disk
    ghost var trace: seq<Disk>

    ghost predicate Valid()
      reads this
    {
      trace != [] && trace[|trace| - 1] == disk
    }

    constructor (sha: Sha, disk: Disk)
      ensures Valid() && this.sha == sha && this.disk == disk && trace == [disk]
    {
      this.sha := sha;
      this.disk := disk;
      trace := [disk];
    }

    /** `_write`: validation never fails here, see `EveryWriteValidates`. */
    method WriteState(next: RuntimeState)
      requires Validates(next)
      modifies this
      ensures disk == old(disk).(state := next) && trace == old(trace) + [disk]
    {
      disk := disk.(state := next);
      trace := trace + [disk];
    }

    method WriteRolling(ema: Ema)
      modifies this
      ensures disk == old(disk).(rolling := ema) && trace == old(trace) + [disk]
    {
      disk := disk.(rolling := ema);
      trace := trace + [disk];
    }

    /** `_begin_locked`. */
    method BeginLocked() returns (r: Result<int, StoreError>)
      requires Valid()
      modifies this
      ensures Valid()
      ensures r == BeginResult(old(disk))
      ensures trace == old(trace) + BeginTrace(old(disk))
      ensures r.Ok? ==>
        Validates(disk.state) && disk.state.active == Some(r.value) && disk.state.phase == Some(Allocated)
      ensures r.Err? ==> disk == old(disk)
    {
      var state := disk.state;
      if !Validates(state) {
        return Err(Corruption);
      }
      if state.phase == Some(WeightsSubmitting) {
        var active := state.active.value;
        var files := FilesOf(disk, active);
        var block := AttemptBlock(files, active);
        if block.Some? {
          return Err(block.value);
        }
        if files.marker.Some? {
          return Err(RecoveryRequired);
        }
        if files.receipt.None? {
          return Err(AmbiguousSubmission);
        }
        var receipt := files.receipt.value;
        if receipt.epochId != active {
          return Err(Corruption);
        }
        if !DiscardableMode(receipt.mode) {
          return Err(AmbiguousSubmission);
        }
        state := state.(active := None, phase := None, attempt := 0, lastFailed := state.active,
                        lastError := Some(ReceiptTag(receipt.mode)));
        WriteState(state);
      }
      if state.phase == Some(Allocated) || state.phase == Some(Querying) {
        var retried := state.(phase := Some(Allocated), attempt := state.attempt + 1);
        WriteState(retried);
        return Ok(retried.active.value);
      }
      if state.phase == Some(Evaluating) {
        state := state.(active := None, phase := None, attempt := 0, lastFailed := state.active,
                        lastError := Some("interrupted_during_evaluation"));
      }
      var epochId := state.nextEpochId;
      WriteState(state.(nextEpochId := epochId + 1, active := Some(epochId), phase := Some(Allocated), attempt := 1));
      r := Ok(epochId);
    }

    /** `_commit_from_completion`: publishes the rolling average and returns the state to write. */
    method CommitFrom(state: RuntimeState, epochId: int) returns (r: Result<RuntimeState, StoreError>)
      requires Valid() && state == disk.state
      modifies this
      ensures Valid()
      ensures match CommitFromCompletion(sha, old(disk), epochId)
        case Err(error) => r == Err(error) && disk == old(disk) && trace == old(trace)
        case Ok(c) => r == Ok(c.next) && disk == old(disk).(rolling := c.rolling) && trace == old(trace) + [disk]
    {
      var files := FilesOf(disk, epochId);
      var block := AttemptBlock(files, epochId);
      if block.Some? {
        return Err(block.value);
      }
      if files.marker.None? {
        return Err(AmbiguousSubmission);
      }
      var completed := Verify(sha, files, epochId);
      if completed.Err? {
        return Err(Corruption);
      }
      var receipt := completed.value;
      WriteRolling(receipt.ema);
      var next := state.(phase := Some(Committed), lastCompleted := Some(epochId), lastError := None,
                         lastReceipt := Some(receipt));
      if ReceiptSucceeded(receipt) {
        next := next.(lastSuccess := Some(receipt));
      }
      r := Ok(next);
    }

    /** `_transition_locked`. */
    method TransitionLocked(epochId: int, phase: Phase) returns (r: Result<RuntimeState, StoreError>)
      requires Valid()
      modifies this
      ensures Valid()
      ensures var t := TransitionTo(sha, old(disk), epochId, phase);
        && trace == old(trace) + TransitionTrace(old(disk), t)
        && (t.Deny? ==> r == Err(t.error))
        && (!t.Deny? ==> r == Ok(disk.state))
    {
      var state := disk.state;
      if !Validates(state) {
        return Err(Corruption);
      }
      if state.active != Some(epochId) || state.phase.None? {
        return Err(NotActive);
      }
      if state.phase == Some(phase) {
        return Ok(state);
      }
      if !Allowed(state.phase.value, phase) {
        return Err(InvalidTransition);
      }
      if phase.Committed? {
        var committed := CommitFrom(state, epochId);
        if committed.Err? {
          return committed;
        }
        WriteState(committed.value);
        return committed;
      }
      WriteState(state.(phase := Some(phase)));
      r := Ok(disk.state);
    }

    /** `_fail_evaluation_locked`. */
    method FailEvaluationLocked(epochId: int, error: string) returns (r: Result<RuntimeState, StoreError>)
      requires Valid()
      modifies this
      ensures Valid()
      ensures r == FailEvaluation(old(disk), epochId, error)
      ensures trace == old(trace) + StateTrace(old(disk), r)
    {
      var state := disk.state;
      if !Validates(state) {
        return Err(Corruption);
      }
      if state.active != Some(epochId) || state.phase != Some(Evaluating) {
        return Err(NotActive);
      }
      WriteState(state.(active := None, phase := None, attempt := 0,
                        lastFailed := Some(epochId), lastError := Some(error)));
      r := Ok(disk.state);
    }

    /** `_fail_weights_locked`. */
    method FailWeightsLocked(epochId: int, error: string) returns (r: Result<RuntimeState, StoreError>)
      requires Valid()
      modifies this
      ensures Valid()
      ensures r == FailWeights(old(disk), epochId, error)
      ensures trace == old(trace) + StateTrace(old(disk), r)
    {
      var state := disk.state;
      if !Validates(state) {
        return Err(Corruption);
      }
      if state.active != Some(epochId) || state.phase != Some(WeightsSubmitting) {
        return Err(NotActive);
      }
      if FilesOf(disk, epochId).attempt.Some? {
        return Err(AmbiguousSubmission);
      }
      WriteState(state.(active := None, phase := None, attempt := 0,
                        lastFailed := Some(epochId), lastError := Some(error)));
      r := Ok(disk.state);
    }

    /** `recover_receipt`. */
    method RecoverReceipt() returns (r: Result<RuntimeState, StoreError>)
      requires Valid()
      modifies this
      ensures Valid()
      ensures match Recover(sha, old(disk))
        case Err(error) => r == Err(error) && trace == old(trace)
        case Ok(c) => r == Ok(c.next) && trace == old(trace) + CommitTrace(old(disk), c)
    {
      var state := disk.state;
      if !Validates(state) {
        return Err(Corruption);
      }
      if state.phase != Some(WeightsSubmitting) {
        return Err(NotActive);
      }
      var active := state.active.value;
      var block := AttemptBlock(FilesOf(disk, active), active);
      if block.Some? {
        return Err(block.value);
      }
      if FilesOf(disk, active).marker.None? {
        return Err(AmbiguousSubmission);
      }
      var recovered := CommitFrom(state, active);
      if recovered.Err? {
        return recovered;
      }
      WriteState(recovered.value);
      r := recovered;
    }
  }
}
