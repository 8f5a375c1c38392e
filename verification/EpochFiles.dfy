/**
 The durable files of one epoch, the completion marker that commits them and its
 verification (src/dolores_subnet/epoch.py). A digest is any function of the file's content.
 */
module EpochFiles {
  import opened Common
  import opened Scoring
  import opened Replay
  import opened Chain

  datatype AttemptStatus = Started | Ambiguous | Completed | Unknown

  /** `receiptFile` holds the epoch id embedded in a canonical receipt name. */
  datatype Attempt = Attempt(epochId: int, liveAttempt: bool, status: AttemptStatus, receiptFile: Option<int>)

  datatype Receipt = Receipt(epochId: int, mode: Mode, reason: string)

  datatype Panel = Panel(epochId: int)

  datatype Weights = Weights(epochId: int, quota: nat, plan: WeightsPlan, mode: Mode, reason: string)

  datatype Marker = Marker(version: int, epochId: int, mode: Mode, reason: string,
                           snapshot: Option<nat>, weights: Option<nat>, panel: Option<nat>,
                           receipt: Option<nat>, attempt: Option<nat>)

  datatype Files = Files(attempt: Option<Attempt>, receipt: Option<Receipt>, snapshot: Option<Ema>,
                         panel: Option<Panel>, weights: Option<Weights>, marker: Option<Marker>)

  const NO_FILES := Files(None, None, None, None, None, None)

  datatype Content = OfSnapshot(ema: Ema) | OfPanel(panel: Panel) | OfWeights(weights: Weights)
                   | OfReceipt(receipt: Receipt) | OfAttempt(attempt: Attempt)

  type Sha = Content -> nat

  const MARKER_VERSION := 1

  predicate Recoverable(mode: Mode) {
    !mode.Foreign?
  }

  /** What the chain client hands back to `run_epoch`. */
  datatype ChainResult = ChainResult(mode: Mode, reason: string, receiptFile: Option<int>)

  datatype CompletionError = CannotRead | BadMarker | UnexpectedArtifact | MissingArtifact | HashMismatch
                           | ContentMismatch | NotRecoverable

  /******* Writing the marker *******/

  function Digest(sha: Sha, file: Option<Content>): Option<nat> {
    match file case None => None case Some(content) => Some(sha(content))
  }

  function SnapshotContent(f: Files): Option<Content> {
    match f.snapshot case None => None case Some(x) => Some(OfSnapshot(x))
  }

  function WeightsContent(f: Files): Option<Content> {
    match f.weights case None => None case Some(x) => Some(OfWeights(x))
  }

  function PanelContent(f: Files): Option<Content> {
    match f.panel case None => None case Some(x) => Some(OfPanel(x))
  }

  function ReceiptContent(f: Files): Option<Content> {
    match f.receipt case None => None case Some(x) => Some(OfReceipt(x))
  }

  function AttemptContent(f: Files): Option<Content> {
    match f.attempt case None => None case Some(x) => Some(OfAttempt(x))
  }

  /** `write_epoch_completion_marker` up to the write. */
  function BuildMarker(sha: Sha, f: Files, epochId: int, result: ChainResult): Result<Marker, CompletionError> {
    if !Recoverable(result.mode) then Err(NotRecoverable)
    else if !result.mode.Fallback? && result.receiptFile != Some(epochId) then Err(ContentMismatch)
    else if result.mode.Fallback? && result.receiptFile.Some? then Err(ContentMismatch)
    else
      var needReceipt, needAttempt := !result.mode.Fallback?, result.mode.Submitted?;
      if f.snapshot.None? || f.weights.None? || f.panel.None?
         || (needReceipt && f.receipt.None?) || (needAttempt && f.attempt.None?) then Err(MissingArtifact)
      else
        Ok(Marker(MARKER_VERSION, epochId, result.mode, result.reason,
                  Digest(sha, SnapshotContent(f)), Digest(sha, WeightsContent(f)), Digest(sha, PanelContent(f)),
                  if needReceipt then Digest(sha, ReceiptContent(f)) else None,
                  if needAttempt then Digest(sha, AttemptContent(f)) else None))
  }

  /******* Verifying it *******/

  datatype Completion = Completion(mode: Mode, reason: string, ema: Ema)

  /** One turn of the artifact loop. */
  function CheckArtifact(sha: Sha, required: bool, entry: Option<nat>, file: Option<Content>): Option<CompletionError> {
    if !required then
      if entry.Some? || file.Some? then Some(UnexpectedArtifact) else None
    else if entry.None? || file.None? then Some(MissingArtifact)
    else if sha(file.value) != entry.value then Some(HashMismatch)
    else None
  }

  function CheckArtifacts(sha: Sha, f: Files, m: Marker): Option<CompletionError> {
    var s := CheckArtifact(sha, true, m.snapshot, SnapshotContent(f));
    var w := CheckArtifact(sha, true, m.weights, WeightsContent(f));
    var p := CheckArtifact(sha, true, m.panel, PanelContent(f));
    var r := CheckArtifact(sha, !m.mode.Fallback?, m.receipt, ReceiptContent(f));
    var a := CheckArtifact(sha, m.mode.Submitted?, m.attempt, AttemptContent(f));
    if s.Some? then s else if w.Some? then w else if p.Some? then p else if r.Some? then r else a
  }

  /** The cross-checks on file contents once every digest matches. */
  predicate ContentsAgree(f: Files, m: Marker, epochId: int)
    requires f.weights.Some? && f.panel.Some?
    requires !m.mode.Fallback? ==> f.receipt.Some?
    requires m.mode.Submitted? ==> f.attempt.Some?
  {
    && f.weights.value.epochId == epochId
    && f.weights.value.mode == m.mode && f.weights.value.reason == m.reason
    && f.panel.value.epochId == epochId
    && (!m.mode.Fallback? ==>
        && f.receipt.value.epochId == epochId
        && f.receipt.value.mode == m.mode && f.receipt.value.reason == m.reason)
    && (m.mode.Submitted? ==>
        && f.attempt.value.epochId == epochId && f.attempt.value.liveAttempt
        && f.attempt.value.status == Completed
        && f.attempt.value.receiptFile == Some(epochId))
  }

  /** `verify_epoch_completion`. */
  function Verify(sha: Sha, f: Files, epochId: int): Result<Completion, CompletionError> {
    if f.marker.None? then Err(CannotRead)
    else
      var m := f.marker.value;
      if m.version != MARKER_VERSION || m.epochId != epochId || !Recoverable(m.mode) then Err(BadMarker)
      else if CheckArtifacts(sha, f, m).Some? then Err(CheckArtifacts(sha, f, m).value)
      else if !ContentsAgree(f, m, epochId) then Err(ContentMismatch)
      else Ok(Completion(m.mode, m.reason, f.snapshot.value))
  }

  /******* What verification guarantees *******/

  /** The marker's entry for an artifact is the digest of the file that is there. */
  ghost predicate Attested(sha: Sha, entry: Option<nat>, file: Option<Content>) {
    entry.Some? && file.Some? && entry.value == sha(file.value)
  }

  /**
   A marker verifies exactly when it is this epoch's, its mode can complete an epoch, every artifact that
   mode calls for is there with the digest it names and no other, and their contents agree with it.
   */
  lemma VerifiesIff(sha: Sha, f: Files, epochId: int)
    ensures Verify(sha, f, epochId).Ok? <==>
      f.marker.Some? && var m := f.marker.value;
        && m.version == 1 && m.epochId == epochId && !m.mode.Foreign?
        && Attested(sha, m.snapshot, SnapshotContent(f))
        && Attested(sha, m.weights, WeightsContent(f)) && f.weights.value.epochId == epochId
        && f.weights.value.mode == m.mode && f.weights.value.reason == m.reason
        && Attested(sha, m.panel, PanelContent(f)) && f.panel.value == Panel(epochId)
        && (if m.mode == Fallback then m.receipt.None? && f.receipt.None?
            else Attested(sha, m.receipt, ReceiptContent(f)) && f.receipt.value == Receipt(epochId, m.mode, m.reason))
        && (if m.mode != Submitted then m.attempt.None? && f.attempt.None?
            else && Attested(sha, m.attempt, AttemptContent(f))
                 && f.attempt.value == Attempt(epochId, true, Completed, Some(epochId)))
    ensures Verify(sha, f, epochId).Ok? ==>
      Verify(sha, f, epochId).value == Completion(f.marker.value.mode, f.marker.value.reason, f.snapshot.value)
  {
  }

  /** The five artifacts in the order they are checked: called for or not, the marker's entry, the file. */
  function Artifacts(f: Files, m: Marker): seq<(bool, Option<nat>, Option<Content>)> {
    [(true, m.snapshot, SnapshotContent(f)), (true, m.weights, WeightsContent(f)), (true, m.panel, PanelContent(f)),
     (m.mode != Fallback, m.receipt, ReceiptContent(f)), (m.mode == Submitted, m.attempt, AttemptContent(f))]
  }

  /** An artifact passes when it is attested if called for, and absent on both sides if not. */
  ghost predicate Passes(sha: Sha, artifact: (bool, Option<nat>, Option<Content>)) {
    if artifact.0 then Attested(sha, artifact.1, artifact.2) else artifact.1.None? && artifact.2.None?
  }

  /** Artifact number `i` is the first that does not pass. */
  ghost predicate FirstBad(sha: Sha, f: Files, m: Marker, i: nat) {
    i < 5 && !Passes(sha, Artifacts(f, m)[i]) && forall k :: 0 <= k < i ==> Passes(sha, Artifacts(f, m)[k])
  }

  /** What is wrong with such an artifact. */
  ghost function FaultOf(artifact: (bool, Option<nat>, Option<Content>)): CompletionError {
    if !artifact.0 then UnexpectedArtifact
    else if artifact.1.None? || artifact.2.None? then MissingArtifact
    else HashMismatch
  }

  lemma FirstBadDecides(sha: Sha, f: Files, m: Marker, i: nat)
    ensures FirstBad(sha, f, m, i) ==> CheckArtifacts(sha, f, m) == Some(FaultOf(Artifacts(f, m)[i]))
    ensures CheckArtifacts(sha, f, m).None? <==> forall k :: 0 <= k < 5 ==> Passes(sha, Artifacts(f, m)[k])
  {
    var all := Artifacts(f, m);
    forall k | 0 <= k < 5
      ensures CheckArtifact(sha, all[k].0, all[k].1, all[k].2)
           == if Passes(sha, all[k]) then None else Some(FaultOf(all[k]))
    {
    }
    if forall k :: 0 <= k < 5 ==> Passes(sha, all[k]) {
      assert Passes(sha, all[0]) && Passes(sha, all[1]) && Passes(sha, all[2]) && Passes(sha, all[3]);
      assert Passes(sha, all[4]);
    }
    if FirstBad(sha, f, m, i) {
      assert i > 0 ==> Passes(sha, all[0]);
      assert i > 1 ==> Passes(sha, all[1]);
      assert i > 2 ==> Passes(sha, all[2]);
      assert i > 3 ==> Passes(sha, all[3]);
    }
  }

  /** Why a marker does not verify: it is missing or not this epoch's, an artifact fails, or contents disagree. */
  lemma VerifyFaultSays(sha: Sha, f: Files, epochId: int, i: nat)
    ensures Verify(sha, f, epochId) == Err(CannotRead) <==> f.marker.None?
    ensures Verify(sha, f, epochId) == Err(BadMarker) <==>
      && f.marker.Some?
      && (f.marker.value.version != 1 || f.marker.value.epochId != epochId || f.marker.value.mode.Foreign?)
    ensures f.marker.Some? && f.marker.value.version == 1 && f.marker.value.epochId == epochId
            && !f.marker.value.mode.Foreign? && FirstBad(sha, f, f.marker.value, i) ==>
      Verify(sha, f, epochId) == Err(FaultOf(Artifacts(f, f.marker.value)[i]))
    ensures Verify(sha, f, epochId) == Err(ContentMismatch) ==>
      f.marker.Some? && forall k :: 0 <= k < 5 ==> Passes(sha, Artifacts(f, f.marker.value)[k])
    ensures Verify(sha, f, epochId).Err? && Verify(sha, f, epochId).error !in {CannotRead, BadMarker}
            && (forall k :: 0 <= k < 5 ==> Passes(sha, Artifacts(f, f.marker.value)[k])) ==>
      Verify(sha, f, epochId) == Err(ContentMismatch)
  {
    if f.marker.Some? {
      FirstBadDecides(sha, f, f.marker.value, i);
    }
  }

  /** A marker is built exactly when the result can complete an epoch, names the receipt, and all files are there. */
  lemma BuildsIff(sha: Sha, f: Files, epochId: int, result: ChainResult)
    ensures BuildMarker(sha, f, epochId, result).Ok? <==>
      && CarriesReceipt(epochId, result) && !result.mode.Foreign?
      && f.snapshot.Some? && f.weights.Some? && f.panel.Some?
      && (f.receipt.Some? || result.mode == Fallback) && (f.attempt.Some? || result.mode != Submitted)
    ensures BuildMarker(sha, f, epochId, result) == Err(NotRecoverable) <==> result.mode.Foreign?
    ensures BuildMarker(sha, f, epochId, result) == Err(ContentMismatch) <==>
      !result.mode.Foreign? && !CarriesReceipt(epochId, result)
    ensures BuildMarker(sha, f, epochId, result).Err? ==>
      BuildMarker(sha, f, epochId, result).error in {NotRecoverable, ContentMismatch, MissingArtifact}
  {
  }

  /** An epoch whose attempt file exists verifies only as a completed, receipted submission. */
  lemma VerifiedAttemptIsCompleted(sha: Sha, f: Files, epochId: int)
    requires Verify(sha, f, epochId).Ok? && f.attempt.Some?
    ensures f.attempt.value.status == Completed && f.attempt.value.epochId == epochId
    ensures f.receipt.Some? && f.receipt.value.mode == Submitted && f.receipt.value.epochId == epochId
    ensures f.marker.value.mode == Submitted
  {
  }

  /** Files left by a chain result before any artifact is written. */
  function SettledFiles(epochId: int, result: ChainResult): Files {
    match result.mode
    case Fallback => NO_FILES
    case Foreign(_) => NO_FILES
    case Submitted =>
      NO_FILES.(attempt := Some(Attempt(epochId, true, Completed, Some(epochId))),
               receipt := Some(Receipt(epochId, Submitted, result.reason)))
    case _ => NO_FILES.(receipt := Some(Receipt(epochId, result.mode, result.reason)))
  }

  function WithSnapshot(f: Files, plan: WeightsPlan): Files {
    f.(snapshot := Some(plan.ema))
  }

  function WithPanel(f: Files, epochId: int): Files {
    f.(panel := Some(Panel(epochId)))
  }

  function WithWeights(f: Files, epochId: int, quota: nat, plan: WeightsPlan, result: ChainResult): Files {
    f.(weights := Some(Weights(epochId, quota, plan, result.mode, result.reason)))
  }

  /** Everything on disk when the marker is built. */
  function CompleteFiles(epochId: int, quota: nat, plan: WeightsPlan, result: ChainResult): Files {
    WithWeights(WithPanel(WithSnapshot(SettledFiles(epochId, result), plan), epochId), epochId, quota, plan, result)
  }

  /** The receipt name a result must carry: none for a fallback, the canonical one otherwise. */
  predicate CarriesReceipt(epochId: int, result: ChainResult) {
    result.receiptFile == if result.mode.Fallback? || result.mode.Foreign? then None else Some(epochId)
  }

  /**
   Write order is enough: with the artifacts of a recoverable result in place the marker can be
   built, and it verifies as soon as it is on disk.
   */
  lemma BuiltMarkerVerifies(sha: Sha, epochId: int, quota: nat, plan: WeightsPlan, result: ChainResult)
    requires CarriesReceipt(epochId, result) && Recoverable(result.mode)
    ensures var f := CompleteFiles(epochId, quota, plan, result);
      && BuildMarker(sha, f, epochId, result).Ok?
      && Verify(sha, f.(marker := Some(BuildMarker(sha, f, epochId, result).value)), epochId)
         == Ok(Completion(result.mode, result.reason, plan.ema))
  {
  }

  /** Replacing a committed artifact by one with another digest is always noticed. */
  lemma TamperingIsNoticed(sha: Sha, f: Files, g: Files, epochId: int)
    requires Verify(sha, f, epochId).Ok? && g.marker == f.marker
    requires || Digest(sha, SnapshotContent(g)) != Digest(sha, SnapshotContent(f))
             || Digest(sha, WeightsContent(g)) != Digest(sha, WeightsContent(f))
             || Digest(sha, PanelContent(g)) != Digest(sha, PanelContent(f))
             || Digest(sha, ReceiptContent(g)) != Digest(sha, ReceiptContent(f))
             || Digest(sha, AttemptContent(g)) != Digest(sha, AttemptContent(f))
    ensures Verify(sha, g, epochId).Err?
  {
  }
}
