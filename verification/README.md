# Verified model of the Dolores subnet validator

The Dolores subnet validator runs epochs. In each epoch it collects coding tasks from miners, measures them,
turns the results into weights, publishes the weights on chain, and records everything in files so that a
process that dies can be followed by another that knows what happened. This project models that validator
and the components around it in Dafny, and proves what they promise.

`dafny verify dfyconfig.toml` checks the whole project.

## The parts

| module | what it models |
|---|---|
| `RuntimeStates`, `EpochFiles`, `Chain` | the decisions: what a tick, a recovery, a transition, a marker check and the chain client do with the files they find |
| `ValidatorStore` | `ValidatorStateStore`'s methods as an object over the durable disk, with a ghost trace of every write |
| `StoreSteps` | that the object's writes are the machine's steps |
| `TickMachine`, `TickInvariant`, `TickTheorems` | any number of validator processes as a state machine: one step per durable write, one per foreign call, a crash enabled everywhere; its invariant; and what holds of every run |
| `TickProgress`, `TickRestarts` | what a tick leaves when nothing fails, what one that fails or dies leaves, and how the next one starts |
| `Rounding`, `Scoring`, `Replay` | top-k scores, the rounded moving average, weights, and replay of an epoch from the submission log |
| `Json`, `Jsonl`, `JsonReader` | the record logs: tolerant reader, tail repair, appends torn at any byte; and a JSON reader for which the assumptions on parsers are proved |
| `Splitting`, `Codec`, `Holdout` | the parser tasks' reference codec, the private holdout cases and the holdout verdict |
| `RateLimiter`, `RequestVerifier` | the miner's token buckets and its replay cache |
| `Panel` | the solver-panel session: plan, budget, refund, cache log |
| `Selections` | what a filtering loop returns, said by positions: the chosen items, in order, each once |
| `NameOrder`, `Sdist`, `ReleaseCheck` | the source-distribution normaliser, and the release check its output must pass |

The protocol modules keep three views of one thing apart. `RuntimeStates` says, as pure functions, which
decision each operation takes. `ValidatorStore` carries the operations out write by write and is proved to
follow those functions, in the order of the writes. `TickMachine` interleaves processes at the same writes,
crashes included, using the same functions, and `StoreSteps` shows that both leave the same disks. A process
acts on its own program counter only, so mutual exclusion is a theorem about the lock and not an assumption.

## Assumptions and findings

- Amounts are exact. Task values are reals in micro-units; a score or average is an integer nearest to an
  exact value. Every theorem about scores, averages and weights holds for any rounder (`Rounding.Rounder`):
  which way a tie falls is open, and for the moving average it may depend on the operands, because the
  program rounds a floating-point sum. That the floating-point sum rounds to an integer nearest to the exact
  one is the assumption that remains.
- Each tick brings its own quota, and runs in which it changes from epoch to epoch are covered. Alpha is one
  number for the whole run: no environment variable or option changes it (src/dolores_subnet/config.py:195).
- A file's digest is any function of its content. Replacing an artifact is noticed when its digest differs.
- A JSON parser is any function that rejects blank texts and texts whose brackets or quotes do not close
  (sections 2 to 7 of RFC 8259); laws about appended records ask that the parser reads those records back. That
  no proper prefix of an object's text can be accepted is proved from that, for the writer's own escapes
  (`Json.ObjectPrefixIsUnbalanced`). Such a parser exists and reads back every object whose strings hold no
  surrogate code points and whose numbers and names look like such (`JsonReader.ParserExists`), so the laws are not
  about nothing. `JsonReader` is that witness, not a model of Python's `json.loads`.
- The task prompt promises the round trip for every list of fields. It fails for the empty list, which is
  written as the empty text and read back as one empty field. `Codec.QuotedRoundTripIff` says that this is
  the only exception.
- `assert_replay_matches` compares the replayed score map with the recorded one, but replay only sees miners
  with a row. It fails exactly for epochs in which some active miner submitted nothing
  (`Replay.ReplayedMapMatchesIff`, `Replay.SilentMinerBreaksReplay`). In exact arithmetic the recorded weights
  always replay; the program sums them in another order, so the last bit of a float may differ.
- The replay cache keeps an identity for thirty seconds after acceptance, while its nonce is acceptable until
  thirty seconds after the nonce's own time. On one clock an accepted request can therefore be accepted again
  exactly when its nonce lay in the future (`RequestVerifier.ReacceptanceIff`).
- `record_receipt`, a read-only compatibility seam of the store that writes nothing, is not modelled; no tick of
  the repository uses it.

## Model

| member | source | states |
|---|---|---|
| `TickTheorems.CalledAtMostOncePerEpoch` | src/dolores_subnet/chain.py:463-687 | in every run `set_weights` is called at most once per epoch id, and only with every gate open and a nonzero weight |
| `TickTheorems.AllocationWaitsForSubmission` | src/dolores_subnet/validator_state.py:153-226 | once it was called for an epoch, no epoch is allocated unless that one is committed, its attempt completed, its receipt submitted and its marker verifying |
| `TickTheorems.RollingAverageIsTheFold` | src/dolores_subnet/epoch.py:149-228 | committed snapshots are the fold over committed epochs in order, each once, and whenever no epoch is publishing the rolling file is that fold: failed and crashed epochs contribute nothing |
| `TickTheorems.FoldIsUpdateEma` | src/dolores_subnet/epoch.py:149-166 | that fold is `update_ema_scores` applied epoch after epoch to the top-k scores and infra-only miners, each epoch with its own quota |
| `TickTheorems.CommittedDriftIsBounded` | src/dolores_subnet/scoring.py:60-77 | in every run each committed average is within half a micro-unit over alpha of the never-rounded one |
| `TickTheorems.CommittedAveragesStayWithinQuota` | src/dolores_subnet/scoring.py:48-77 | in every run, with task values of at most one, committed averages stay between zero and the largest quota used |
| `TickTheorems.IdleMinerKeepsItsAverage` | src/dolores_subnet/scoring.py:60-77 | in every run a miner with a positive committed average that only idles in later committed epochs keeps one, never larger, and loses at least one micro-unit per measured epoch until one is left |
| `TickTheorems.IdleMinerKeepsItsWeight` | src/dolores_subnet/epoch.py:149-167 | the weights an epoch computes from a positive average are positive for that miner, though it idles again |
| `TickTheorems.AllocationStartsFromLastCommit` | src/dolores_subnet/validator_state.py:194-226 | an epoch is only ever allocated with `miner_state.json` equal to the last committed snapshot |
| `TickTheorems.RecoveryIsComplete` | src/dolores_subnet/validator_state.py:132-192 | a tick asks for recovery exactly when the pending epoch has its marker, and exactly then recovery succeeds |
| `TickTheorems.StuckIff` | src/dolores_subnet/validator_state.py:132-192 | ticks and recovery are both refused exactly when the attempt is unsettled, or there is neither a marker nor a dry-run, skipped or error receipt |
| `TickTheorems.CrashAndRecoverEqualsFinish` | src/dolores_subnet/validator_state.py:344-381 | dying at any write after the marker and recovering from any process leaves the disk the uninterrupted tick leaves |
| `TickTheorems.RecoverAtReaches` | src/dolores_subnet/validator_state.py:132-151 | with the lock free, recovering a sealed epoch commits it and frees the lock |
| `TickTheorems.MarkerSealsTheEpoch` | src/dolores_subnet/epoch.py:202-219 | once the marker is durable, whatever runs, fails, crashes or recovers, the disk stays destined for one committed state until some step reaches it |
| `TickTheorems.CommittedMarkerVerifiesForever` | src/dolores_subnet/epoch.py:384-497 | a committed epoch's marker verifies, with the same average, in every later world |
| `TickTheorems.StuckFailsClosed` | src/dolores_subnet/validator_state.py:328-342 | from a stuck disk with the lock free no tick, recovery or crash ever changes the disk, allocates an epoch or calls `set_weights` |
| `TickTheorems.UnstuckMovesOn` | src/dolores_subnet/validator_state.py:388-429 | every other disk lets a tick in, after at most one recovery |
| `TickTheorems.LockExcludes` | src/dolores_subnet/atomic.py:17-59 | two processes are never inside at once, and the one inside holds the lock |
| `TickTheorems.EpochsAdvance` | src/dolores_subnet/validator_state.py:194-226 | ids are 1, 2, 3 and so on, each is evaluated at most once, commits are in order, and every stored state validates |
| `TickTheorems.HolderOwnsTheActiveEpoch` | src/dolores_subnet/validator_state.py:388-429 | the lock holder's epoch stays active and uncommitted while its tick runs, and all its rows come from this attempt |
| `TickProgress.UninterruptedTickCommits` | src/dolores_subnet/epoch.py:66-228 | from any reachable world in which a process has entered, with or without marking querying, whatever it measured and whatever its client answered: if it takes the steps of a tick and nothing fails, its epoch is committed, with exactly this state, files, average, rows and history, `set_weights` called only if every gate is open, and the next exit frees the lock, however other processes interleave and crash |
| `TickProgress.Undisturbed` | src/dolores_subnet/atomic.py:17-59 | while a process is at work nothing the others do shows on the disk, the history or the lock |
| `TickProgress.EvaluationRuns` | src/dolores_subnet/validator_state.py:228-255 | querying or not, the phases from entry lead to the same view before the chain call: one row per outcome, the plan computed from the rolling average |
| `TickProgress.ChainCallRuns` | src/dolores_subnet/chain.py:463-687 | the chain call leaves the files of its outcome: nothing, a receipt, or a completed attempt with its receipt |
| `TickProgress.FinishRuns` | src/dolores_subnet/epoch.py:184-219 | five artifacts, the marker among them, then the average and the state, each with these contents |
| `TickRestarts.FinishedEpochIsSucceeded` | src/dolores_subnet/validator_state.py:211-226 | after a finished epoch a tick allocates the next id, and changes nothing else |
| `TickRestarts.UnevaluatedEpochIsRetried` | src/dolores_subnet/validator_state.py:184-192 | an epoch that stopped before its evaluation is retried under its id, with one more attempt counted |
| `TickRestarts.InterruptedEvaluationIsFailed` | src/dolores_subnet/validator_state.py:194-226 | one that stopped while evaluating is recorded as failed and the next id is allocated |
| `TickRestarts.DiscardableReceiptIsFailed` | src/dolores_subnet/validator_state.py:167-187 | so is one that stopped with a dry-run, skipped or error receipt and no marker, with that mode in the error text |
| `TickRestarts.PendingSubmissionIsRefused` | src/dolores_subnet/validator_state.py:153-192 | any other that stopped while submitting keeps the tick out and everything as it was |
| `TickRestarts.CrashThenTick` | src/dolores_subnet/validator_state.py:153-226 | what the next tick does after a crash anywhere inside a tick: retry, fail and take the next, or be turned away |
| `TickRestarts.CrashIsStuckIff` | src/dolores_subnet/validator_state.py:328-342 | a crash needs an operator exactly between entering weights_submitting and the marker, unless a receipt says nothing was submitted |
| `TickRestarts.RaisingTick` | src/dolores_subnet/validator_state.py:413-426 | leaving a tick early fails an epoch still evaluating, with the text of the exception if there is one, and leaves every other epoch as it is |
| `TickRestarts.FailedSubmissionIsStuck` | src/dolores_subnet/chain.py:660-687 | a rejected or raising submission ends with an ambiguous attempt, everything else as it was, and a disk only an operator can move |
| `TickRestarts.ForeignOutcomeIsGivenUp` | src/dolores_subnet/epoch.py:203-208 | an outcome no epoch can complete with keeps its artifacts, writes no marker, publishes no average and gives the epoch up with its name and reason |
| `TickRestarts.TicksGoOn` | src/dolores_subnet/validator_state.py:388-429 | from every reachable world with a free lock that is not stuck, one more tick commits one more epoch, and the same can be said again |
| `TickRestarts.ReceiptsFollowTheMarker` | src/dolores_subnet/validator_state.py:344-381 | last completed epoch, last receipt and last successful receipt change at commits only, then say what the marker says; the last success only for a dry run or a submission |
| `TickRestarts.LivePublishLeavesNoRehearsal` | src/dolores_subnet/chain.py:556-592 | asked to publish live, the client never leaves a dry-run receipt |
| `TickTheorems.ReplayAgreesWithArtifact` | src/dolores_subnet/epoch.py:231-254 | in every run, replaying the log of an epoch with a weights artifact gives each recorded score with a row, the recorded map exactly when every active miner has a row, and the recorded weights |
| `TickInvariant.StepKeeps` | src/dolores_subnet/epoch.py:66-228 | every step of every process, every acquisition and every crash keeps the invariant and only extends history |
| `TickInvariant.CommitStep` | src/dolores_subnet/validator_state.py:344-381 | the commit write keeps the invariant and appends exactly this epoch to the committed ones |
| `TickInvariant.WritePending` | src/dolores_subnet/epoch.py:184-219 | an artifact write for the publishing epoch keeps the invariant and every committed epoch's files |
| `TickInvariant.SubtensorLiveKeeps` | src/dolores_subnet/chain.py:593-606 | the attempt file is written before the signing seam is crossed, for an epoch that was never submitted |
| `TickInvariant.MarkAmbiguousKeeps` | src/dolores_subnet/chain.py:660-687 | a failure after the attempt was opened leaves it ambiguous and the epoch pending |
| `TickInvariant.ExitKeeps` | src/dolores_subnet/validator_state.py:413-424 | leaving a tick fails an epoch still evaluating and keeps the invariant |
| `RuntimeStates.EveryWriteValidates` | src/dolores_subnet/validator_state.py:89-106 | every state any operation writes passes `validate` |
| `RuntimeStates.RecoverIsTheCommitTransition` | src/dolores_subnet/validator_state.py:228-255 | recovery and the tick's final transition succeed together and make the same two writes |
| `RuntimeStates.TransitionIff` | src/dolores_subnet/validator_state.py:228-255 | a transition is made exactly to the next phase of the active epoch, or from allocated straight to evaluating, and to committed only behind a settled attempt and a verifying marker; each refusal has its condition |
| `RuntimeStates.BeginInterruptedSays` | src/dolores_subnet/validator_state.py:153-192 | what a tick answers to an epoch that stopped while submitting, for any files it may have |
| `RuntimeStates.RecoversIff` | src/dolores_subnet/validator_state.py:132-151 | recovery commits exactly behind a settled attempt and a verifying marker; each refusal has its condition |
| `RuntimeStates.FailsIff` | src/dolores_subnet/validator_state.py:257-291 | only the epoch now evaluating can be failed as such, and only a submitting one without an attempt file |
| `RuntimeStates.CorruptionIsRefused` | src/dolores_subnet/validator_state.py:89-106 | exactly the states no tick can have written are refused as corrupt, by every operation |
| `ValidatorStore.ValidatorStateStore.BeginLocked` | src/dolores_subnet/validator_state.py:153-226 | the epoch it enters or its refusal, and its writes in order |
| `ValidatorStore.ValidatorStateStore.TransitionLocked` | src/dolores_subnet/validator_state.py:228-255 | the transition `RuntimeStates.TransitionIff` characterises, taken or denied, and its writes in order |
| `ValidatorStore.ValidatorStateStore.CommitFrom` | src/dolores_subnet/validator_state.py:344-381 | the rolling average is published only from a verified completion of this epoch, and the state to write is returned |
| `ValidatorStore.ValidatorStateStore.FailEvaluationLocked` | src/dolores_subnet/validator_state.py:257-271 | only an epoch still evaluating is failed, by one write |
| `ValidatorStore.ValidatorStateStore.FailWeightsLocked` | src/dolores_subnet/validator_state.py:273-291 | only a publishing epoch without an attempt file is failed, by one write |
| `ValidatorStore.ValidatorStateStore.RecoverReceipt` | src/dolores_subnet/validator_state.py:132-151 | its result and its two writes, rolling average first |
| `StoreSteps.BeginLockedSteps` | src/dolores_subnet/validator_state.py:153-226 | the disks the store leaves on entering are those the machine leaves, write by write, and so are the epoch and the refusal |
| `StoreSteps.TransitionLockedSteps` | src/dolores_subnet/validator_state.py:228-255 | the same for the transitions up to the chain call |
| `StoreSteps.CommitSteps` | src/dolores_subnet/validator_state.py:344-381 | the same for the two writes of a commit, though the machine decides anew before each |
| `StoreSteps.RecoverReceiptSteps` | src/dolores_subnet/validator_state.py:132-151 | the same for the two writes of a recovery |
| `StoreSteps.FailingSteps` | src/dolores_subnet/validator_state.py:257-291 | the same for failing an epoch |
| `EpochFiles.VerifiedAttemptIsCompleted` | src/dolores_subnet/epoch.py:384-497 | an epoch with an attempt file verifies only as a completed, receipted submission |
| `EpochFiles.VerifiesIff` | src/dolores_subnet/epoch.py:384-497 | a marker verifies exactly when it is this epoch's, every artifact its mode calls for is there with the digest it names and no other, and their contents agree with it |
| `EpochFiles.VerifyFaultSays` | src/dolores_subnet/epoch.py:384-497 | why a marker does not verify: missing or not this epoch's, the first artifact that fails and how, or contents that disagree |
| `EpochFiles.BuildsIff` | src/dolores_subnet/epoch.py:326-381 | a marker is built exactly when the result can complete an epoch, names the receipt, and all files are there |
| `EpochFiles.BuiltMarkerVerifies` | src/dolores_subnet/epoch.py:326-381 | with the artifacts of a recoverable result in place the marker can be built and verifies at once |
| `EpochFiles.TamperingIsNoticed` | src/dolores_subnet/epoch.py:384-497 | replacing any committed artifact by one with another digest makes verification fail |
| `Chain.GoesLiveIff` | src/dolores_subnet/chain.py:463-592 | the client goes live exactly when the weights are publishable and every gate is open |
| `Chain.SettlesWithoutSubmitting` | src/dolores_subnet/chain.py:471-592 | what it settles without going live is a dry-run, skipped or error receipt, which a later tick may discard |
| `Chain.DryRunIff` | src/dolores_subnet/chain.py:556-571 | it rehearses exactly when publishable weights meet a ready chain and only a rehearsal was asked for |
| `Chain.ErrorIff` | src/dolores_subnet/chain.py:488-592 | it reports an error exactly when the chain does not know the validator, or a live publish lacks a consent |
| `Chain.SkippedIff` | src/dolores_subnet/chain.py:471-554 | it skips exactly when nothing is publishable, or a chain that knows it is not ready |
| `Chain.SkippedSays` | src/dolores_subnet/chain.py:693-709 | each skip names the first cause that applies |
| `Chain.ErrorSays` | src/dolores_subnet/chain.py:488-592 | each error names its cause |
| `Chain.LiveSays` | src/dolores_subnet/chain.py:615-620 | a live submission names whether it commits and reveals |
| `Chain.MissingGatesIff` | src/dolores_subnet/chain.py:838-848 | the refused live publish lists exactly the consents that are missing |
| `Rounding.RoundIsMonotone` | src/dolores_subnet/scoring.py:48-57 | whatever the tie-breaking, rounding keeps order |
| `Rounding.RoundersDiffer` | src/dolores_subnet/scoring.py:76 | ties to even and ties upwards are both rounders, and they differ |
| `Scoring.TopKEpochScores` | src/dolores_subnet/scoring.py:48-57 | the dictionary it fills holds each miner's top-k score |
| `Scoring.TopKIsMaximum` | src/dolores_subnet/scoring.py:48-57 | before rounding, the score is the maximum of the clipped sum over all choices of at most k values |
| `Scoring.EpochScoreIsTheBestPick` | src/dolores_subnet/scoring.py:48-57 | a stored score is an integer nearest to the best sum any choice of at most k clipped values reaches |
| `Scoring.TopKScoreIsPermutationInvariant` | src/dolores_subnet/scoring.py:48-57 | the rounded score does not depend on the order of the values |
| `Scoring.TopKScoreNeverFallsWhenAdding` | src/dolores_subnet/scoring.py:48-57 | for any rounder, one more submission never lowers the rounded score |
| `Scoring.TopKScoreNeverFallsWhenRaising` | src/dolores_subnet/scoring.py:48-57 | for any rounder, raising one value never lowers the rounded score |
| `Scoring.TopKScoreIsWithinQuota` | src/dolores_subnet/scoring.py:48-57 | for any rounder, values of at most one give a score between zero and the quota |
| `Scoring.UpdateEmaScores` | src/dolores_subnet/scoring.py:60-77 | the dictionary it fills blends every known or scored miner and leaves infra-only miners as they were, in the rounder's arithmetic |
| `Scoring.UpdateEmaIsOneStep` | src/dolores_subnet/scoring.py:60-77 | for any rounder a miner, listed or not, keeps its average when infra-only and otherwise gets an integer nearest to the exact blend |
| `Scoring.AlphaIsTheShareOfTheNewScore` | src/dolores_subnet/scoring.py:60-77 | what alpha means: a first score counts alpha, a zero score leaves the complement, an equal score nothing |
| `Scoring.FirstScoreCountsThreeTenths` | src/dolores_subnet/config.py:26 | with the configured alpha a first score of ten micro-units leaves three, whatever the rounder |
| `Scoring.EmaDriftIsBounded` | src/dolores_subnet/scoring.py:60-77 | for any rounder, after any number of updates the stored average is within half a micro-unit over alpha of the exact one |
| `Scoring.DriftAsQuotient` | src/dolores_subnet/scoring.py:60-77 | that bound as a quotient |
| `Scoring.EmaStaysWithinQuota` | src/dolores_subnet/scoring.py:60-77 | for any rounder, scores within the quota keep the stored average within the quota |
| `Scoring.AveragesSplit` | src/dolores_subnet/scoring.py:60-77 | updating over a run of epochs is updating over its first part and then over the rest |
| `Scoring.DecayStep` | src/dolores_subnet/scoring.py:60-77 | with alpha 0.3 any integer nearest to the blend with a zero score is strictly lower from two micro-units on, and is one at one |
| `Scoring.IdleStep` | src/dolores_subnet/scoring.py:60-77 | one update of an idle miner: unchanged when nothing was measured or at most one micro-unit is left, strictly lower but positive otherwise |
| `Scoring.IdleAverageStaysPositive` | src/dolores_subnet/config.py:26 | over any run of updates, infra-only epochs included, an idle miner's positive average never reaches zero, never rises, and each measured epoch costs at least one micro-unit until one is left |
| `Scoring.IdleAverageSettlesAtOne` | src/dolores_subnet/scoring.py:60-77 | it is exactly one micro-unit once enough epochs measured the miner |
| `Scoring.WeightsAreOrderFree` | src/dolores_subnet/scoring.py:80-85 | in exact arithmetic the weights depend on the set of active miners only |
| `Scoring.WeightsSumToOne` | src/dolores_subnet/scoring.py:38-45 | the weights sum to one and are positive exactly for positive averages, or are all zero when no average is positive |
| `Scoring.WeightsAreProportional` | src/dolores_subnet/scoring.py:38-45 | any two weights are in proportion to the positive parts of their averages: with the sum this fixes every weight |
| `Scoring.IdleMinerKeepsPositiveWeight` | src/dolores_subnet/scoring.py:38-85 | after any run of updates a miner once above zero that only idled has a positive weight whenever it is active |
| `Replay.CollectValues` | src/dolores_subnet/epoch.py:138-147 | the values and statuses gathered for every active miner |
| `Replay.ReplayMinerValues` | src/dolores_subnet/epoch.py:231-243 | the values gathered from the rows of one epoch |
| `Replay.InfraOnlyMeansNothingMeasured` | src/dolores_subnet/epoch.py:151-155 | a miner is left out of the average exactly when it was tried and nothing was measured |
| `Replay.InfraOnlyIff` | src/dolores_subnet/epoch.py:151-155 | left out of the average are exactly the active miners that were tried and met only infrastructure errors |
| `Replay.ValuesAreListed` | src/dolores_subnet/epoch.py:138-147 | the values that count are those of the miner's measured outcomes, in order; the statuses those of all its outcomes |
| `Replay.RowsAreListed` | src/dolores_subnet/epoch.py:231-243 | an epoch's rows are the outcomes of the log lines that carry its id, in order |
| `Replay.ReasonIff` | src/dolores_subnet/epoch.py:168-172 | weights are held back exactly when every outcome was an infrastructure error, or no active average is positive |
| `Replay.ReplayedScoreMatches` | src/dolores_subnet/epoch.py:231-254 | every miner with a row gets its recorded score back |
| `Replay.ReplayedMapMatchesIff` | src/dolores_subnet/epoch.py:246-254 | the whole map matches if and only if every active miner has a row |
| `Replay.SilentMinerBreaksReplay` | src/dolores_subnet/epoch.py:246-254 | an epoch with one silent miner cannot be replayed |
| `Replay.ReplayedWeightsMatch` | src/dolores_subnet/epoch.py:231-254 | the replayed weights equal the recorded ones whatever order lists the miners |
| `Json.ObjectPrefixIsUnbalanced` | src/dolores_subnet/atomic.py:110-114 | an encoded object is one line, and a nonempty prefix of it has its brackets closed only if it is all of it |
| `Jsonl.ReadTolerant` | src/dolores_subnet/epoch.py:500-524 | the rows of all finished lines and of an unfinished last line that parses, or the first error with its line number |
| `Jsonl.ReaderReadsAll` | src/dolores_subnet/epoch.py:500-524 | when no line stops it, the reader returns every record, in order, and nothing else |
| `Jsonl.ReaderStops` | src/dolores_subnet/epoch.py:500-524 | otherwise the first line it cannot pass decides, unless that line is the unfinished malformed last one |
| `Jsonl.RepairKeepsTheReading` | src/dolores_subnet/epoch.py:527-564 | for every byte string the repair leaves the reader's result, rows or error, as it was |
| `Jsonl.RepairRefusesIff` | src/dolores_subnet/epoch.py:527-564 | it refuses exactly the files the reader refuses: with the reader's error, except that an unfinished last line that is no object is reported without its number |
| `Jsonl.RepairIsIdempotent` | src/dolores_subnet/epoch.py:527-564 | a repaired file ends its last line and a second repair rewrites nothing |
| `Jsonl.TornRecordIsRead` | src/dolores_subnet/atomic.py:110-125 | a record torn after any number of bytes is read exactly when its object text is all there |
| `Jsonl.AppendsAreRead` | src/dolores_subnet/atomic.py:110-125 | records appended whole to a complete log are read after the old ones, in order |
| `Jsonl.TornAppendThenRepair` | src/dolores_subnet/epoch.py:527-564 | after a torn append, a repair and later appends the reader returns the old rows, the torn record iff its text was written in full, and the later rows |
| `Jsonl.LogFile.WriteAll` | src/dolores_subnet/atomic.py:128-134 | however the kernel splits the write, a prefix is appended, and all of it unless it raises |
| `Jsonl.LogFile.AppendRecord` | src/dolores_subnet/atomic.py:110-125 | one record and its newline, or a prefix of them |
| `Jsonl.LogFile.RepairTail` | src/dolores_subnet/epoch.py:527-564 | its result and the file it leaves |
| `Jsonl.CheckComplete` | src/dolores_subnet/epoch.py:542-554 | the repair's own loop over finished lines agrees with the reader |
| `Jsonl.AfterLastNewline` | src/dolores_subnet/epoch.py:539-541 | the prefix it cuts off holds all finished lines and the rest holds no newline |
| `JsonReader.ParserExists` | src/dolores_subnet/atomic.py:110-114 | a parser as the logs assume it exists, and reads back every readable object as the writer encodes it |
| `JsonReader.EncodeIsInjective` | src/dolores_subnet/atomic.py:110-114 | no two readable values are written alike |
| `JsonReader.TornAppendsOutright` | src/dolores_subnet/epoch.py:527-564 | for that parser the law of torn appends holds without any assumption |
| `Codec.FormatRecord` | examples/tasks/honest_example/task.yaml:19-23 | the reference formatter writes each plain field as it is and wraps and doubles every other |
| `Codec.ExpectedQuoted` | src/dolores_subnet/holdout.py:314-327 | the holdout's formatter writes the same text as the reference |
| `Codec.QuotedLength` | src/dolores_subnet/holdout.py:314-327 | a field that needs quotes is longer by two and by one for each quote inside; any other is written as it is |
| `Codec.ParseRecord` | examples/tasks/honest_example/task.yaml:23-33 | the quote-state loop computes the specified parse |
| `Codec.QuotedRoundTripIff` | examples/tasks/honest_example/task.yaml:4-10 | parsing a formatted list gives it back if and only if it is not empty |
| `Codec.ParseDoubled` | examples/tasks/honest_example/task.yaml:23-33 | inside quotes a doubled field and the closing quote read as the field |
| `Codec.ParseCuts` | examples/tasks/honest_example/task.yaml:23-33 | whatever the text, it is cut at exactly the delimiters outside quotes |
| `Codec.ParseLosesOnlyQuotes` | examples/tasks/honest_example/task.yaml:23-33 | whatever the text, only quotes are lost |
| `Codec.LoneQuotesVanish` | examples/tasks/honest_example/task.yaml:23-33 | a quote survives only where two stand together |
| `Codec.QuotedIsInjectiveIff` | src/dolores_subnet/holdout.py:314-327 | no two nonempty lists are written alike if and only if delimiter and quote differ |
| `Codec.ExpectedEscaped` | src/dolores_subnet/holdout.py:328-342 | the holdout's escaping formatter computes the specified text |
| `Codec.EscapedLength` | src/dolores_subnet/holdout.py:328-342 | an escaped field is longer by one for each delimiter and each escape in it, counted by position, and by nothing else |
| `Codec.EscapingChangesIff` | src/dolores_subnet/holdout.py:328-342 | the escaping formatter only joins if and only if no field holds a delimiter or an escape |
| `Codec.UnescapeOfFormat` | src/dolores_subnet/holdout.py:328-342 | an escaped record has exactly one reading and it is the list it was written from |
| `Codec.EscapedIsInjectiveIff` | src/dolores_subnet/holdout.py:328-342 | no two nonempty lists are escaped alike if and only if delimiter and escape differ |
| `Codec.DanglingEscapeIsNoRecord` | src/dolores_subnet/holdout.py:354-365 | a plain word and a dangling escape is the text of no record |
| `Codec.StrippedParseRecord` | src/dolores_subnet/holdout.py:369-387 | without its marked lines the reference parser only splits on the delimiter |
| `Codec.SplitReadsBackIff` | examples/tasks/honest_example/task.yaml:11-17 | splitting reads a quoted record back if and only if no field needed quotes |
| `Holdout.PrivateCases` | src/dolores_subnet/holdout.py:274-294 | whatever is drawn, the result is a rearrangement of the four fixed cases and twenty drawn ones |
| `Holdout.Token` | src/dolores_subnet/holdout.py:277-283 | every drawn token has three to twelve characters and holds the delimiter or the special character |
| `Holdout.Shuffle` | src/dolores_subnet/holdout.py:293 | the shuffle loses and adds nothing |
| `Holdout.CasesAreNonempty` | src/dolores_subnet/holdout.py:274-294 | there are 24 cases, none an empty list, the fixed ones are among them, and only the one-empty-field case needs no quotes |
| `Holdout.RoundTripTest` | src/dolores_subnet/holdout.py:343-352 | the generated test passes exactly when every case formats and parses as expected |
| `Holdout.ReferencePasses` | src/dolores_subnet/holdout.py:343-352 | whatever was drawn, the reference passes every case |
| `Holdout.ProbesPassOnlyTheEmptyField` | src/dolores_subnet/holdout.py:369-379 | whatever was drawn, the starter and the stripped reference pass the one-empty-field case and no other |
| `Holdout.ProbesFail` | src/dolores_subnet/holdout.py:369-379 | so both probes fail the holdout |
| `Holdout.EvaluateHoldout` | src/dolores_subnet/holdout.py:150-236 | the verdict passes exactly when an isolated reference passed and at least one probe ran and all were caught; the status agrees with the verdict |
| `Holdout.RunQuotedTask` | src/dolores_subnet/holdout.py:186-201 | on every draw the reference run passes and both probe runs fail |
| `Holdout.JudgeQuotedTask` | src/dolores_subnet/holdout.py:150-236 | run truthfully in a container, the quoted task passes on every draw with both probes caught |
| `RateLimiter.TokenBucketLimiter.Allow` | src/dolores_subnet/miner_cli.py:75-90 | the answer and the key's new bucket, all other buckets untouched |
| `RateLimiter.NewLimiter` | src/dolores_subnet/miner_cli.py:67-73 | a limiter is created exactly for positive bounds |
| `RateLimiter.OtherKeysHaveNoEffect` | src/dolores_subnet/miner_cli.py:75-90 | however calls interleave, each key is answered as if it were alone |
| `RateLimiter.AdmissionsAreBounded` | src/dolores_subnet/miner_cli.py:75-90 | over any window a key is admitted at most burst times plus rate times the clock's forward movement in it |
| `RateLimiter.RisesOfSteadyClock` | src/dolores_subnet/miner_cli.py:75-90 | which is the window's length when the clock never goes back |
| `RateLimiter.PatientKeyIsAlwaysAdmitted` | src/dolores_subnet/miner_cli.py:75-90 | a key that always waits for one token is never refused |
| `RateLimiter.BurstIsExact` | src/dolores_subnet/miner_cli.py:75-90 | at one instant a new key gets exactly its burst |
| `RateLimiter.TokensAreConserved` | src/dolores_subnet/miner_cli.py:75-90 | while the bucket does not overflow, tokens earned plus the first ones equal tokens spent plus tokens left |
| `RequestVerifier.RequestVerifier.Verify` | src/dolores_subnet/miner_cli.py:984-1025 | the answer and the state left behind are those of the specified step |
| `RequestVerifier.AcceptedIff` | src/dolores_subnet/miner_cli.py:984-1025 | in any run from an empty cache a request is accepted exactly when it is sound (terminal, metadata, identity, version, timeout, nonce window), signed, has a token at hand, and its identity was not accepted in the last thirty seconds |
| `RequestVerifier.RefusedBecause` | src/dolores_subnet/miner_cli.py:984-1013 | each refusal before the cache names the first condition that fails, and one before the limiter changes nothing |
| `RequestVerifier.BucketsFollowSoundRequests` | src/dolores_subnet/miner_cli.py:1012-1015 | each hotkey's bucket is charged once for each sound and signed request of it, and for nothing else |
| `RequestVerifier.RequestVerifier.Prune` | src/dolores_subnet/miner_cli.py:1018-1021 | exactly the identities accepted more than thirty seconds ago are dropped |
| `RequestVerifier.ReplayRefusedIff` | src/dolores_subnet/miner_cli.py:1014-1025 | in any run a request that reaches the cache is refused if and only if its identity was accepted at most thirty seconds before |
| `RequestVerifier.AcceptancesAreSpaced` | src/dolores_subnet/miner_cli.py:1014-1025 | two acceptances of one identity are more than thirty seconds apart |
| `RequestVerifier.ReacceptedOnlyFromTheFuture` | src/dolores_subnet/miner_cli.py:1001-1025 | on one clock only a nonce that was in the future is ever accepted twice |
| `RequestVerifier.ReacceptanceIff` | src/dolores_subnet/miner_cli.py:1001-1025 | on one clock an accepted request can be accepted again if and only if its nonce was in the future |
| `Panel.PanelSession.MakePlan` | src/dolores_subnet/panel.py:156-175 | the plan, and a slot reserved exactly when it is live |
| `Panel.PanelSession.Refund` | src/dolores_subnet/panel.py:177-180 | a reserved slot goes back to the budget |
| `Panel.PanelSession.Record` | src/dolores_subnet/panel.py:192-224 | the entry appended, the measurement stored, the slot settled |
| `Panel.PanelSession.CacheStore` | src/dolores_subnet/panel.py:129-144 | index and log grow together: reloading the log gives the index |
| `Panel.PanelSession.LoadCache` | src/dolores_subnet/panel.py:117-127 | the index holds the last record of each hash under this configuration |
| `Panel.LoadIsLastRecord` | src/dolores_subnet/panel.py:117-127 | the index holds, for each hash, the last log record of this configuration, and nothing else |
| `Panel.PlanIff` | src/dolores_subnet/panel.py:146-175 | each plan has its condition, by the log, the flags and the budget |
| `Panel.SourceIff` | src/dolores_subnet/epoch.py:94-131 | a live plan ends live exactly when the run produced rows, and every other plan is what it was |
| `Panel.EntrySays` | src/dolores_subnet/panel.py:192-224 | an entry tells the rate this run measured, the one on record or none, and only this run's rows |
| `Panel.MeasuredRunIsStored` | src/dolores_subnet/panel.py:129-144 | a paid run adds one record exactly when it measured something: its hash, its rate, its genuine rows |
| `Panel.RehearsalSpendsNothing` | src/dolores_subnet/panel.py:156-175 | a rehearsal pays for nothing and measures nothing |
| `Panel.CalibrateOne` | src/dolores_subnet/epoch.py:94-131 | one submission from plan to evidence, its slot settled |
| `Panel.Calibrate` | src/dolores_subnet/epoch.py:93-131 | a whole epoch settles every slot and leaves the specified budget, entries and log |
| `Panel.BudgetIsConserved` | src/dolores_subnet/panel.py:156-224 | budget left plus live entries never changes and the budget never goes below zero |
| `Panel.ExhaustedMeansAllSpent` | src/dolores_subnet/epoch.py:106-109 | a submission is turned away for want of budget only once every slot has paid for a run |
| `Panel.EntriesInOrder` | src/dolores_subnet/epoch.py:93-131 | an active session records one entry per submission, in order, planned on what came before |
| `Panel.MeasuredOnceIsNeverLiveAgain` | src/dolores_subnet/panel.py:146-175 | a hash the epoch has measured is planned from the cache ever after |
| `Panel.LogStaysMeasured` | src/dolores_subnet/panel.py:129-144 | the log only grows and every stored rate is the one its stored rows give |
| `Panel.IndexIsMeasured` | src/dolores_subnet/panel.py:117-127 | so every cached rate is the one its record's rows give |
| `Panel.StoredRowsGiveTheRate` | src/dolores_subnet/scoring.py:118-129 | recomputing the rate from the stored filtered rows gives the measured rate |
| `Panel.CleanRateIs` | src/dolores_subnet/scoring.py:118-129 | the rate is passed attempts over genuine attempts, both counted by position, and there is none exactly when no attempt was genuine |
| `Panel.GenuineAreListed` | src/dolores_subnet/scoring.py:118-129 | the rows kept are the genuine attempts, in order |
| `Panel.InfraRowsDoNotMoveTheRate` | src/dolores_subnet/scoring.py:118-129 | an infrastructure failure among the attempts leaves the rate alone |
| `Panel.RateIsAFraction` | src/dolores_subnet/scoring.py:118-129 | a measured rate lies between zero and one |
| `Sdist.ReadMembers` | scripts/normalize_sdist.py:42-79 | the members sorted by name, or the first reason to refuse them |
| `Sdist.NormalizeSdist` | scripts/normalize_sdist.py:82-131 | the archive it writes, or why it refuses |
| `Sdist.SafeNameIff` | scripts/normalize_sdist.py:26-39 | a name is safe exactly when it is printable without backslash and every component is proper: three of the tests never decide |
| `Sdist.RootIs` | scripts/normalize_sdist.py:57 | the root is what stands before the first slash |
| `Sdist.WrittenIsNeutral` | scripts/normalize_sdist.py:111-124 | a written member keeps its name, flags and data, and nothing of the host: owner, time and mode are fixed and its size is that of its data |
| `Sdist.NormalizesIff` | scripts/normalize_sdist.py:42-131 | exactly these archives are normalised, and each refusal names the first condition that fails |
| `Sdist.NormalizedAlikeIff` | scripts/normalize_sdist.py:82-131 | two archives normalise alike if and only if they map the same names to the same directory flags, execute flags and data |
| `Sdist.NormalizingAgain` | scripts/normalize_sdist.py:82-131 | normalising again, to any epoch, is normalising once to that epoch |
| `ReleaseCheck.ValidateSdist` | scripts/build_release_bundle.py:418-484 | the first fault the release check finds, from the gzip header to the name and version PKG-INFO claims |
| `ReleaseCheck.ReleaseAcceptsIff` | scripts/build_release_bundle.py:418-484 | any archive, normalised or not, is accepted exactly when its sizes, gzip time, ascending names and every member are publishable and it holds a PKG-INFO that names the release |
| `ReleaseCheck.ReleaseFaultSays` | scripts/build_release_bundle.py:418-484 | what is reported otherwise is the first failing condition |
| `ReleaseCheck.MemberFaultSays` | scripts/build_release_bundle.py:438-471 | a member's fault is the first of its checks that fails |
| `ReleaseCheck.FirstFaultIs` | scripts/build_release_bundle.py:438-471 | the loop over the members reports the fault of the first faulty one, with the bytes up to it counted |
| `ReleaseCheck.CanonicalNameIsCanonical` | scripts/build_release_bundle.py:802-804 | a canonical name has no capitals and single hyphens as its only separators |
| `ReleaseCheck.CanonicalNameIsStable` | scripts/build_release_bundle.py:802-804 | a canonical name is left alone |
| `ReleaseCheck.LowerIs` | scripts/build_release_bundle.py:802-804 | capitals become the small letters of the same place in the alphabet, anything else stays |
| `ReleaseCheck.LettersAreKept` | scripts/build_release_bundle.py:802-804 | only separators are merged: the letters come out in order, in lower case |
| `ReleaseCheck.NoFaultIff` | scripts/build_release_bundle.py:438-453 | the running size limit only depends on the total |
| `ReleaseCheck.MetadataIsKept` | scripts/build_release_bundle.py:472-476 | the normalised archive has one regular PKG-INFO under the release root exactly when the original has, with the same data |
| `ReleaseCheck.NormalizedIsAcceptedIff` | scripts/build_release_bundle.py:418-484 | the release check accepts a normalised archive if and only if epoch and root are the release's, PKG-INFO is a regular member naming the distribution and version, and the size limits are met |
| `NameOrder.SortedIsUnique` | scripts/normalize_sdist.py:79 | a list sorted by distinct names is determined by what it contains |
| `NameOrder.BelowIff` | scripts/normalize_sdist.py:79 | the first position where two names differ decides their order, and a proper beginning comes first |

## Left out

- Bittensor SDK, wallets, metagraph reads, HTTP transport: `set_weights`, its read-back and the SDK's signature check are arbitrary outcomes, exceptions included.
- `bounded_call` and `_bounded_call`: POSIX timers and signals.
- Docker runs, the task pipeline, stable hashing and the tables of delimiters and quotes, which live in an engine that is not part of this model; delimiter and special character are any two distinct characters.
- SHA-256, HMAC, signatures, tar, gzip and zip encodings; an archive is its member sequence, its gzip time stamp and whether it is a gzip stream at all.
- The header parser that reads PKG-INFO, which is a parameter, and the lower case of letters outside ASCII in a distribution's name.
- Float bit patterns: weights are summed in exact arithmetic, so the order of summation does not matter here as it may in the last bit there.
- Timestamps, sizes and paths inside the durable files, the weights artifact's `task_values`, which keeps the last writer's value of a claimed hash, and the report file.
- The marker's path, symlink and length checks, and JSON decoding of state and marker files: a file that cannot be read is modelled as absent or invalid.
- Temporary files and directory synchronisation of atomic writes: such a write is one step that happens or does not.
- The lock file's contents; the advisory lock is one cell that a dying process gives back.
- Submission rows in the protocol machine are whole: what a torn append or a repair does to them is proved for the byte log in `Jsonl`.
- A log file that does not exist: `repair_jsonl_tail` returns at once.
- A torn line in the panel cache log, which `_load_cache` would refuse to read.
- The panel session's spend gates, credentials, sidecar file and mock panel, and `recalibrated_task_value`.
- The SDK's own nonce cache, which may refuse more replays than the cohort's cache.
- `_strip_probe_drop_lines` as text processing: the stripped reference is modelled by the two functions it leaves.
- Existing-file and regular-file checks around the normaliser, and the wheel, bundle and provenance checks.
- The DuckDB archive, configuration, command lines, doctor, health and status scripts, pre-gates, packaging and endpoints.
