/**
 From submission outcomes to the weights artifact, and back again by replay
 (src/dolores_subnet/epoch.py). A live epoch scores the outcomes it holds in memory;
 replay scores the rows found in the submission log.
 */
module Replay {
  import opened Common
  import opened Rounding
  import opened Scoring
  import opened Selections

  datatype Status = InfraError | Judged(name: string)

  /** What a submission earned; `value` is the task value in micro-units. */
  datatype Outcome = Outcome(hotkey: Hotkey, status: Status, value: real)

  /** One line of the submission log. */
  datatype Row = Row(epochId: int, outcome: Outcome)

  /** The values that count for one miner, in submission order. */
  function ValuesOf(outcomes: seq<Outcome>, h: Hotkey): seq<real> {
    if outcomes == [] then []
    else
      var front := ValuesOf(outcomes[..|outcomes| - 1], h);
      var o := outcomes[|outcomes| - 1];
      if o.hotkey == h && !o.status.InfraError? then front + [o.value] else front
  }

  function StatusesOf(outcomes: seq<Outcome>, h: Hotkey): seq<Status> {
    if outcomes == [] then []
    else
      var front := StatusesOf(outcomes[..|outcomes| - 1], h);
      var o := outcomes[|outcomes| - 1];
      if o.hotkey == h then front + [o.status] else front
  }

  ghost predicate HasOutcome(outcomes: seq<Outcome>, h: Hotkey) {
    exists i :: 0 <= i < |outcomes| && outcomes[i].hotkey == h
  }

  function Submitters(outcomes: seq<Outcome>): (hs: set<Hotkey>)
    ensures forall h :: h in hs <==> HasOutcome(outcomes, h)
  {
    set i | 0 <= i < |outcomes| :: outcomes[i].hotkey
  }

  /** Live scoring starts from an empty list for every active miner. */
  function MinerValues(active: seq<Hotkey>, outcomes: seq<Outcome>): map<Hotkey, seq<real>> {
    map h | h in active :: ValuesOf(outcomes, h)
  }

  function MinerStatuses(active: seq<Hotkey>, outcomes: seq<Outcome>): map<Hotkey, seq<Status>> {
    map h | h in active :: StatusesOf(outcomes, h)
  }

  predicate AllInfra(statuses: seq<Status>) {
    forall i :: 0 <= i < |statuses| ==> statuses[i].InfraError?
  }

  /** Miners with at least one outcome and only infrastructure errors. */
  function InfraOnlyMiners(active: seq<Hotkey>, outcomes: seq<Outcome>): set<Hotkey> {
    set h | h in active && StatusesOf(outcomes, h) != [] && AllInfra(StatusesOf(outcomes, h))
  }

  /** A miner is excluded from the average exactly when it was tried and nothing was measured. */
  lemma {:induction false} InfraOnlyMeansNothingMeasured(outcomes: seq<Outcome>, h: Hotkey)
    ensures StatusesOf(outcomes, h) != [] <==> HasOutcome(outcomes, h)
    ensures AllInfra(StatusesOf(outcomes, h)) <==> ValuesOf(outcomes, h) == []
  {
    if outcomes != [] {
      var n := |outcomes| - 1;
      var front := outcomes[..n];
      InfraOnlyMeansNothingMeasured(front, h);
      assert outcomes == front + [outcomes[n]];
      SubmittersOfAppend(front, outcomes[n]);
      assert HasOutcome(outcomes, h) <==> h in Submitters(outcomes);
      assert HasOutcome(front, h) <==> h in Submitters(front);
      var before := StatusesOf(front, h);
      if outcomes[n].hotkey == h {
        var after := before + [outcomes[n].status];
        assert after[|before|] == outcomes[n].status;
        assert AllInfra(after) ==> AllInfra(before) by {
          if AllInfra(after) { assert forall i :: 0 <= i < |before| ==> before[i] == after[i]; }
        }
      }
    }
  }

  /** Left out of the average: the active miners that were tried and met only infrastructure errors. */
  lemma InfraOnlyIff(active: seq<Hotkey>, outcomes: seq<Outcome>, h: Hotkey)
    ensures h in InfraOnlyMiners(active, outcomes) <==>
      && h in active && HasOutcome(outcomes, h)
      && forall i :: 0 <= i < |outcomes| && outcomes[i].hotkey == h ==> outcomes[i].status == InfraError
  {
    InfraOnlyMeansNothingMeasured(outcomes, h);
    AllInfraIff(outcomes, h);
  }

  lemma {:induction false} AllInfraIff(outcomes: seq<Outcome>, h: Hotkey)
    ensures AllInfra(StatusesOf(outcomes, h)) <==>
      forall i :: 0 <= i < |outcomes| && outcomes[i].hotkey == h ==> outcomes[i].status == InfraError
  {
    if outcomes != [] {
      var n := |outcomes| - 1;
      var before := StatusesOf(outcomes[..n], h);
      AllInfraIff(outcomes[..n], h);
      if outcomes[n].hotkey == h {
        assert StatusesOf(outcomes, h)[|before|] == outcomes[n].status;
        assert forall k :: 0 <= k < |before| ==> StatusesOf(outcomes, h)[k] == before[k];
      }
    }
  }

  /** An outcome of this miner that was measured. */
  function MeasuredFor(h: Hotkey): Outcome -> bool {
    (o: Outcome) => o.hotkey == h && o.status != InfraError
  }

  function SubmittedBy(h: Hotkey): Outcome -> bool {
    (o: Outcome) => o.hotkey == h
  }

  function ValueOf(): Outcome -> real {
    (o: Outcome) => o.value
  }

  function StatusOf(): Outcome -> Status {
    (o: Outcome) => o.status
  }

  /** The values that count are those of the miner's measured outcomes, in order; the statuses, of all of them. */
  lemma {:induction false} ValuesAreListed(outcomes: seq<Outcome>, h: Hotkey)
    ensures Lists(outcomes, MeasuredFor(h), ValueOf(), ValuesOf(outcomes, h))
    ensures Lists(outcomes, SubmittedBy(h), StatusOf(), StatusesOf(outcomes, h))
  {
    if outcomes == [] {
      ListsNothing(MeasuredFor(h), ValueOf());
      ListsNothing(SubmittedBy(h), StatusOf());
    } else {
      var front, last := outcomes[..|outcomes| - 1], outcomes[|outcomes| - 1];
      assert outcomes == front + [last];
      ValuesAreListed(front, h);
      ListsAppend(front, last, MeasuredFor(h), ValueOf(), ValuesOf(front, h));
      ListsAppend(front, last, SubmittedBy(h), StatusOf(), StatusesOf(front, h));
    }
  }

  lemma ValuesOfAppend(outcomes: seq<Outcome>, o: Outcome, h: Hotkey)
    ensures ValuesOf(outcomes + [o], h)
         == ValuesOf(outcomes, h) + (if o.hotkey == h && !o.status.InfraError? then [o.value] else [])
    ensures StatusesOf(outcomes + [o], h)
         == StatusesOf(outcomes, h) + (if o.hotkey == h then [o.status] else [])
  {
  }

  lemma MinerValuesOfAppend(active: seq<Hotkey>, outcomes: seq<Outcome>, o: Outcome)
    requires o.hotkey in active
    ensures var values := MinerValues(active, outcomes);
      MinerValues(active, outcomes + [o])
      == if o.status.InfraError? then values else values[o.hotkey := values[o.hotkey] + [o.value]]
    ensures var statuses := MinerStatuses(active, outcomes);
      MinerStatuses(active, outcomes + [o]) == statuses[o.hotkey := statuses[o.hotkey] + [o.status]]
  {
  }

  /** The loop over outcomes in `run_epoch`, and the two dictionaries it fills. */
  method CollectValues(active: seq<Hotkey>, outcomes: seq<Outcome>)
    returns (values: map<Hotkey, seq<real>>, statuses: map<Hotkey, seq<Status>>)
    requires forall i :: 0 <= i < |outcomes| ==> outcomes[i].hotkey in active
    ensures values == MinerValues(active, outcomes)
    ensures statuses == MinerStatuses(active, outcomes)
  {
    values := map h | h in active :: [];
    statuses := map h | h in active :: [];
    for i := 0 to |outcomes|
      invariant values == MinerValues(active, outcomes[..i])
      invariant statuses == MinerStatuses(active, outcomes[..i])
    {
      var o := outcomes[i];
      assert outcomes[..i + 1] == outcomes[..i] + [o];
      MinerValuesOfAppend(active, outcomes[..i], o);
      statuses := statuses[o.hotkey := statuses[o.hotkey] + [o.status]];
      if !o.status.InfraError? {
        values := values[o.hotkey := values[o.hotkey] + [o.value]];
      }
    }
    assert outcomes[..|outcomes|] == outcomes;
  }

  /** Replay creates a list the first time a row names a miner. */
  function ReplayValues(outcomes: seq<Outcome>): map<Hotkey, seq<real>> {
    map h | h in Submitters(outcomes) :: ValuesOf(outcomes, h)
  }

  /** The rows of one epoch, in log order. */
  function RowsOf(rows: seq<Row>, epochId: int): seq<Outcome> {
    if rows == [] then []
    else
      var front := RowsOf(rows[..|rows| - 1], epochId);
      var r := rows[|rows| - 1];
      if r.epochId == epochId then front + [r.outcome] else front
  }

  lemma ReplayValuesOfAppend(outcomes: seq<Outcome>, o: Outcome)
    ensures var values := ReplayValues(outcomes);
      var seen := if o.hotkey in values then values else values[o.hotkey := []];
      ReplayValues(outcomes + [o])
      == if o.status.InfraError? then seen else seen[o.hotkey := seen[o.hotkey] + [o.value]]
  {
    SubmittersOfAppend(outcomes, o);
    if o.hotkey !in Submitters(outcomes) {
      NoValuesWithoutOutcome(outcomes, o.hotkey);
    }
    forall h | h in Submitters(outcomes) + {o.hotkey}
      ensures ValuesOf(outcomes + [o], h)
           == ValuesOf(outcomes, h) + (if o.hotkey == h && !o.status.InfraError? then [o.value] else [])
    {
      ValuesOfAppend(outcomes, o, h);
    }
  }

  /** The filter and `setdefault` loop of `replay_epoch`. */
  method ReplayMinerValues(rows: seq<Row>, epochId: int) returns (values: map<Hotkey, seq<real>>)
    ensures values == ReplayValues(RowsOf(rows, epochId))
  {
    values := map[];
    for i := 0 to |rows|
      invariant values == ReplayValues(RowsOf(rows[..i], epochId))
    {
      var r := rows[i];
      assert rows[..i + 1] == rows[..i] + [r];
      RowsOfAppend(rows[..i], r, epochId);
      if r.epochId == epochId {
        var o := r.outcome;
        ReplayValuesOfAppend(RowsOf(rows[..i], epochId), o);
        if o.hotkey !in values {
          values := values[o.hotkey := []];
        }
        if !o.status.InfraError? {
          values := values[o.hotkey := values[o.hotkey] + [o.value]];
        }
      }
    }
    assert rows[..|rows|] == rows;
  }

  lemma SubmittersOfAppend(before: seq<Outcome>, o: Outcome)
    ensures Submitters(before + [o]) == Submitters(before) + {o.hotkey}
  {
    var after := before + [o];
    assert after[|before|].hotkey == o.hotkey;
    forall h ensures h in Submitters(after) <==> h in Submitters(before) + {o.hotkey} {
      if HasOutcome(before, h) {
        var k :| 0 <= k < |before| && before[k].hotkey == h;
        assert after[k].hotkey == h;
      }
    }
  }

  lemma {:induction false} NoValuesWithoutOutcome(outcomes: seq<Outcome>, h: Hotkey)
    requires !HasOutcome(outcomes, h)
    ensures ValuesOf(outcomes, h) == []
  {
    if outcomes != [] {
      var front := outcomes[..|outcomes| - 1];
      assert forall k :: 0 <= k < |front| ==> front[k] == outcomes[k];
      NoValuesWithoutOutcome(front, h);
    }
  }

  function InEpoch(epochId: int): Row -> bool {
    (r: Row) => r.epochId == epochId
  }

  function OutcomeOf(): Row -> Outcome {
    (r: Row) => r.outcome
  }

  /** An epoch's rows are the outcomes of the log lines that carry its id, in order. */
  lemma {:induction false} RowsAreListed(rows: seq<Row>, epochId: int)
    ensures Lists(rows, InEpoch(epochId), OutcomeOf(), RowsOf(rows, epochId))
  {
    if rows == [] {
      ListsNothing(InEpoch(epochId), OutcomeOf());
    } else {
      var front, last := rows[..|rows| - 1], rows[|rows| - 1];
      assert rows == front + [last];
      RowsAreListed(front, epochId);
      ListsAppend(front, last, InEpoch(epochId), OutcomeOf(), RowsOf(front, epochId));
    }
  }

  lemma RowsOfAppend(rows: seq<Row>, r: Row, epochId: int)
    ensures RowsOf(rows + [r], epochId)
         == RowsOf(rows, epochId) + (if r.epochId == epochId then [r.outcome] else [])
  {
  }

  /******* The artifact *******/

  /** Why the weights should not be published, if there is a reason. */
  datatype WeightReason = AllZero | DegradedAllInfra

  /** Everything `run_epoch` derives from the outcomes before it touches the chain. */
  datatype WeightsPlan = WeightsPlan(scores: map<Hotkey, int>, ema: Ema, weights: map<Hotkey, real>,
                                     reason: Option<WeightReason>)

  function PlanWeights(r: Rounder, alpha: real, quota: nat, previous: Ema, active: seq<Hotkey>, outcomes: seq<Outcome>)
    : WeightsPlan
  {
    var scores := TopKScores(r, MinerValues(active, outcomes), quota);
    var ema := UpdateEma(r, alpha, previous, scores, InfraOnlyMiners(active, outcomes));
    var weights := NormalizeActive(ema, active);
    WeightsPlan(scores, ema, weights, ReasonFor(weights, outcomes))
  }

  function ReasonFor(weights: map<Hotkey, real>, outcomes: seq<Outcome>): Option<WeightReason> {
    if outcomes != [] && forall i :: 0 <= i < |outcomes| ==> outcomes[i].status.InfraError? then Some(DegradedAllInfra)
    else if forall h :: h in weights ==> weights[h] == 0.0 then Some(AllZero)
    else None
  }

  /** Why weights are held back, by the outcomes and the averages. */
  lemma ReasonIff(r: Rounder, alpha: real, quota: nat, previous: Ema, active: seq<Hotkey>, outcomes: seq<Outcome>)
    ensures var plan := PlanWeights(r, alpha, quota, previous, active, outcomes);
      var degraded := outcomes != [] && forall i :: 0 <= i < |outcomes| ==> outcomes[i].status == InfraError;
      && (plan.reason == Some(DegradedAllInfra) <==> degraded)
      && (plan.reason == Some(AllZero) <==> !degraded && !AnyPositive(plan.ema, active))
      && (plan.reason == None <==> !degraded && AnyPositive(plan.ema, active))
  {
    WeightsSumToOne(PlanWeights(r, alpha, quota, previous, active, outcomes).ema, active);
  }

  /******* Replay agrees with the run *******/

  /** Every miner with a row in the epoch gets its recorded score back. */
  lemma ReplayedScoreMatches(r: Rounder, active: seq<Hotkey>, outcomes: seq<Outcome>, quota: nat, h: Hotkey)
    requires h in active && HasOutcome(outcomes, h)
    ensures h in TopKScores(r, ReplayValues(outcomes), quota)
    ensures TopKScores(r, ReplayValues(outcomes), quota)[h] == TopKScores(r, MinerValues(active, outcomes), quota)[h]
  {
  }

  /**
   The whole score map matches exactly when every active miner has a row: a miner that was
   reachable but submitted nothing is scored zero by the run and is absent from the replay.
   */
  lemma ReplayedMapMatchesIff(r: Rounder, active: seq<Hotkey>, outcomes: seq<Outcome>, quota: nat)
    requires forall i :: 0 <= i < |outcomes| ==> outcomes[i].hotkey in active
    ensures TopKScores(r, ReplayValues(outcomes), quota) == TopKScores(r, MinerValues(active, outcomes), quota)
       <==> forall h :: h in active ==> HasOutcome(outcomes, h)
  {
    if forall h :: h in active ==> HasOutcome(outcomes, h) {
      ReplayValuesMatch(active, outcomes);
    } else {
      var h :| h in active && !HasOutcome(outcomes, h);
      assert h !in ReplayValues(outcomes) && h in MinerValues(active, outcomes);
      assert h !in TopKScores(r, ReplayValues(outcomes), quota).Keys;
      assert h in TopKScores(r, MinerValues(active, outcomes), quota).Keys;
    }
  }

  lemma ReplayValuesMatch(active: seq<Hotkey>, outcomes: seq<Outcome>)
    requires forall i :: 0 <= i < |outcomes| ==> outcomes[i].hotkey in active
    requires forall h :: h in active ==> HasOutcome(outcomes, h)
    ensures ReplayValues(outcomes) == MinerValues(active, outcomes)
  {
  }

  /** A concrete epoch that completes and cannot be replayed: one reachable miner, no submissions. */
  lemma SilentMinerBreaksReplay(r: Rounder, quota: nat)
    ensures TopKScores(r, ReplayValues([]), quota) != TopKScores(r, MinerValues(["miner"], []), quota)
  {
    assert "miner" in ["miner"];
    assert !HasOutcome([], "miner");
    ReplayedMapMatchesIff(r, ["miner"], [], quota);
  }

  /** In exact arithmetic the replayed weights always equal the recorded ones, whatever order lists them. */
  lemma ReplayedWeightsMatch(plan: WeightsPlan, active: seq<Hotkey>, recordedKeys: seq<Hotkey>)
    requires plan.weights == NormalizeActive(plan.ema, active)
    requires forall h :: h in recordedKeys <==> h in plan.weights
    ensures NormalizeActive(plan.ema, recordedKeys) == plan.weights
  {
    WeightsAreOrderFree(plan.ema, recordedKeys, active);
  }
}
