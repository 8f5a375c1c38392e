/**
 That ticks get somewhere: what a tick leaves when nothing fails, what one that fails leaves, and how
 the next one starts.
 */
module TickProgress {
  import opened Common
  import opened Scoring
  import opened Replay
  import opened Chain
  import opened EpochFiles
  import opened RuntimeStates
  import opened TickMachine
  import opened TickInvariant
  import opened TickTheorems

  /******* One process, whatever the others try *******/

  predicate AtWork(pc: Pc) {
    InTick(pc) || pc.Exiting?
  }

  predicate BodyAction(a: Action) {
    !(a.BeginTick? || a.Raise? || a.Exit? || a.RecoverReceipt?)
  }

  function ViewOf(w: World, p: Pid): View {
    View(w.disk, w.hist, LocalOf(w, p))
  }

  function Fold<V, A>(step: (V, A) -> V, v: V, actions: seq<A>): V {
    if actions == [] then v else step(Fold(step, v, actions[..|actions| - 1]), actions[|actions| - 1])
  }

  lemma {:induction false} FoldConcat<V, A>(step: (V, A) -> V, v: V, first: seq<A>, second: seq<A>)
    ensures Fold(step, v, first + second) == Fold(step, Fold(step, v, first), second)
  {
    if second == [] {
      assert first + second == first;
    } else {
      var n := |second| - 1;
      FoldConcat(step, v, first, second[..n]);
      assert (first + second)[..|first| + n] == first + second[..n];
    }
  }

  lemma FoldFirst<V, A>(step: (V, A) -> V, v: V, a: A, others: seq<A>)
    ensures Fold(step, v, [a] + others) == Fold(step, step(v, a), others)
  {
    FoldConcat(step, v, [a], others);
    assert [a][..0] == [];
    assert Fold(step, v, [a]) == step(v, a);
  }

  lemma FoldThree<V, A>(step: (V, A) -> V, v: V, a: A, b: A, c: A)
    ensures Fold(step, v, [a, b, c]) == step(step(step(v, a), b), c)
  {
    assert [a, b, c][..2] == [a, b] && [a, b][..1] == [a] && [a][..0] == [];
    assert Fold(step, v, [a]) == step(v, a);
    assert Fold(step, v, [a, b]) == step(step(v, a), b);
  }

  function Acting(cfg: Config): (View, Action) -> View {
    (v: View, a: Action) => Act(cfg, v, a)
  }

  /** What a process makes of its view by acting undisturbed. */
  function RunActs(cfg: Config, v: View, actions: seq<Action>): View {
    Fold(Acting(cfg), v, actions)
  }

  lemma RunActsConcat(cfg: Config, v: View, first: seq<Action>, second: seq<Action>)
    ensures RunActs(cfg, v, first + second) == RunActs(cfg, RunActs(cfg, v, first), second)
  {
    FoldConcat(Acting(cfg), v, first, second);
  }

  lemma RunActsFirst(cfg: Config, v: View, a: Action, others: seq<Action>)
    ensures RunActs(cfg, v, [a] + others) == RunActs(cfg, Act(cfg, v, a), others)
  {
    FoldFirst(Acting(cfg), v, a, others);
  }

  lemma StaysAtWork(cfg: Config, v: View, a: Action)
    requires AtWork(v.me.pc) && BodyAction(a)
    ensures AtWork(Act(cfg, v, a).me.pc)
  {
  }

  /** The events of one process. */
  function Own(p: Pid, events: seq<Event>): seq<Event> {
    if events == [] then []
    else
      var front, last := Own(p, events[..|events| - 1]), events[|events| - 1];
      if last.pid == p then front + [last] else front
  }

  function Doing(p: Pid, actions: seq<Action>): seq<Event> {
    seq(|actions|, i requires 0 <= i < |actions| => Do(p, actions[i]))
  }

  lemma OthersDoNothing(cfg: Config, w: World, p: Pid, ev: Event)
    requires LockInv(cfg, w) && w.lock == Some(p) && ev.pid != p
    ensures ViewOf(Step(cfg, w, ev), p) == ViewOf(w, p) && Step(cfg, w, ev).lock == Some(p)
  {
  }

  /** A step of the process inside, as its action function gives it. */
  lemma InsideStep(cfg: Config, w: World, p: Pid, a: Action)
    requires w.lock == Some(p) && !LocalOf(w, p).pc.Outside?
    ensures var v, w' := Act(cfg, ViewOf(w, p), a), Step(cfg, w, Do(p, a));
      && ViewOf(w', p) == (if v.me.pc.Outside? then v.(me := BLANK) else v)
      && w'.lock == (if v.me.pc.Outside? then None else Some(p))
  {
  }

  lemma OwnStep(cfg: Config, w: World, p: Pid, a: Action)
    requires w.lock == Some(p) && AtWork(LocalOf(w, p).pc) && BodyAction(a)
    ensures ViewOf(Step(cfg, w, Do(p, a)), p) == Act(cfg, ViewOf(w, p), a)
    ensures Step(cfg, w, Do(p, a)).lock == Some(p) && AtWork(LocalOf(Step(cfg, w, Do(p, a)), p).pc)
  {
    StaysAtWork(cfg, ViewOf(w, p), a);
    InsideStep(cfg, w, p, a);
  }

  /** While p is at work nothing the others do, acquisitions and crashes included, shows on what p sees. */
  lemma {:induction false} Undisturbed(cfg: Config, w: World, p: Pid, events: seq<Event>, actions: seq<Action>)
    requires Inv(cfg, w) && AtWork(LocalOf(w, p).pc)
    requires Own(p, events) == Doing(p, actions) && forall i :: 0 <= i < |actions| ==> BodyAction(actions[i])
    ensures ViewOf(Run(cfg, w, events), p) == RunActs(cfg, ViewOf(w, p), actions)
    ensures Run(cfg, w, events).lock == Some(p) && AtWork(LocalOf(Run(cfg, w, events), p).pc)
  {
    if events == [] {
      assert |Doing(p, actions)| == |actions|;
    } else {
      var before, ev := events[..|events| - 1], events[|events| - 1];
      RunKeeps(cfg, w, before);
      if ev.pid != p {
        Undisturbed(cfg, w, p, before, actions);
        OthersDoNothing(cfg, Run(cfg, w, before), p, ev);
      } else {
        var n := |actions| - 1;
        assert |Own(p, before)| + 1 == |Doing(p, actions)| == |actions|;
        assert Own(p, before) == Own(p, events)[..n] == Doing(p, actions[..n]);
        assert ev == Own(p, events)[n] == Do(p, actions[n]);
        Undisturbed(cfg, w, p, before, actions[..n]);
        OwnStep(cfg, Run(cfg, w, before), p, actions[n]);
      }
    }
  }

  /******* From entry to the chain call *******/

  function Appends(outcomes: seq<Outcome>): seq<Action> {
    seq(|outcomes|, i requires 0 <= i < |outcomes| => Append(outcomes[i]))
  }

  function Logged(e: int, outcomes: seq<Outcome>): seq<Row> {
    seq(|outcomes|, i requires 0 <= i < |outcomes| => Row(e, outcomes[i]))
  }

  /** Every measured submission came from a miner the tick reached. */
  ghost predicate FromActive(setup: Setup, outcomes: seq<Outcome>) {
    forall i :: 0 <= i < |outcomes| ==> outcomes[i].hotkey in setup.active
  }

  /** What a tick does up to the chain call; only a wire tick marks querying. */
  function Evaluation(queried: bool, setup: Setup, outcomes: seq<Outcome>): seq<Action> {
    (if queried then [Query] else []) + ([Evaluate(setup)] + (Appends(outcomes) + [Score]))
  }

  /** The view of a process about to call the chain. */
  function Evaluated(cfg: Config, v: View, setup: Setup, outcomes: seq<Outcome>): View {
    var e := v.me.epoch;
    View(v.disk.(state := v.disk.state.(phase := Some(WeightsSubmitting)),
                 rows := v.disk.rows + Logged(e, outcomes)),
         v.hist.(evaluated := v.hist.evaluated + [e], setups := v.hist.setups[e := setup]),
         v.me.(pc := Submitting, setup := setup, outcomes := outcomes,
               plan := cfg.plan(v.disk.rolling, setup, outcomes)))
  }

  lemma {:induction false} AppendsRun(cfg: Config, v: View, outcomes: seq<Outcome>)
    requires v.me.pc.Scoring? && v.me.outcomes == [] && FromActive(v.me.setup, outcomes)
    ensures RunActs(cfg, v, Appends(outcomes))
         == v.(disk := v.disk.(rows := v.disk.rows + Logged(v.me.epoch, outcomes)),
               me := v.me.(outcomes := outcomes))
  {
    if outcomes == [] {
      assert v.disk.rows + Logged(v.me.epoch, outcomes) == v.disk.rows;
    } else {
      var n := |outcomes| - 1;
      var e, front, last := v.me.epoch, outcomes[..n], outcomes[n];
      AppendsRun(cfg, v, front);
      assert Appends(outcomes)[..n] == Appends(front) && Appends(outcomes)[n] == Append(last);
      assert front + [last] == outcomes;
      assert v.disk.rows + Logged(e, front) + [Row(e, last)] == v.disk.rows + Logged(e, outcomes);
    }
  }

  lemma QueryRuns(cfg: Config, v: View)
    requires v.me.pc.Entered? && Validates(v.disk.state) && Owns(v.disk.state, v.me.epoch, Allocated)
    ensures Act(cfg, v, Query)
         == v.(disk := v.disk.(state := v.disk.state.(phase := Some(Querying))), me := v.me.(pc := Polled))
  {
  }

  /** Evaluation can start from a polled epoch as from a fresh one. */
  lemma EvaluateRuns(cfg: Config, v: View, setup: Setup)
    requires Validates(v.disk.state)
    requires || (v.me.pc.Entered? && Owns(v.disk.state, v.me.epoch, Allocated))
             || (v.me.pc.Polled? && Owns(v.disk.state, v.me.epoch, Querying))
    ensures Act(cfg, v, Evaluate(setup))
         == View(v.disk.(state := v.disk.state.(phase := Some(Evaluating))),
                 v.hist.(evaluated := v.hist.evaluated + [v.me.epoch], setups := v.hist.setups[v.me.epoch := setup]),
                 v.me.(pc := Pc.Scoring, setup := setup, outcomes := []))
  {
    EvaluateStep(cfg, v, setup);
  }

  lemma ScoreRuns(cfg: Config, v: View)
    requires v.me.pc.Scoring? && Validates(v.disk.state) && Owns(v.disk.state, v.me.epoch, Evaluating)
    ensures Act(cfg, v, Score)
         == v.(disk := v.disk.(state := v.disk.state.(phase := Some(WeightsSubmitting))),
               me := v.me.(pc := Submitting, plan := cfg.plan(v.disk.rolling, v.me.setup, v.me.outcomes)))
  {
    ScoreStep(cfg, v);
  }

  lemma MeasureRuns(cfg: Config, v: View, setup: Setup, outcomes: seq<Outcome>)
    requires Validates(v.disk.state) && FromActive(setup, outcomes)
    requires || (v.me.pc.Entered? && Owns(v.disk.state, v.me.epoch, Allocated))
             || (v.me.pc.Polled? && Owns(v.disk.state, v.me.epoch, Querying))
    ensures RunActs(cfg, v, [Evaluate(setup)] + (Appends(outcomes) + [Score])) == Evaluated(cfg, v, setup, outcomes)
  {
    var v1 := Act(cfg, v, Evaluate(setup));
    EvaluateRuns(cfg, v, setup);
    RunActsFirst(cfg, v, Evaluate(setup), Appends(outcomes) + [Score]);
    AppendsRun(cfg, v1, outcomes);
    var v2 := RunActs(cfg, v1, Appends(outcomes));
    RunActsConcat(cfg, v1, Appends(outcomes), [Score]);
    RunActsFirst(cfg, v2, Score, []);
    assert [Score] + [] == [Score];
    ScoreRuns(cfg, v2);
  }

  lemma EvaluationRuns(cfg: Config, v: View, queried: bool, setup: Setup, outcomes: seq<Outcome>)
    requires v.me.pc.Entered? && Validates(v.disk.state) && Owns(v.disk.state, v.me.epoch, Allocated)
    requires FromActive(setup, outcomes)
    ensures RunActs(cfg, v, Evaluation(queried, setup, outcomes)) == Evaluated(cfg, v, setup, outcomes)
  {
    var others := [Evaluate(setup)] + (Appends(outcomes) + [Score]);
    if queried {
      var v1 := Act(cfg, v, Query);
      QueryRuns(cfg, v);
      RunActsFirst(cfg, v, Query, others);
      MeasureRuns(cfg, v1, setup, outcomes);
      assert Evaluated(cfg, v1, setup, outcomes) == Evaluated(cfg, v, setup, outcomes);
    } else {
      assert [] + others == others;
      MeasureRuns(cfg, v, setup, outcomes);
    }
  }

  /******* The chain call *******/

  datatype Client = NullClient | Subtensor(inputs: ChainInputs)

  /** The tick will sign: its weights are worth publishing and every gate is open. */
  ghost predicate Signs(client: Client, plan: WeightsPlan) {
    client.Subtensor? && Publishable(plan.reason, AllWeightsZero(plan)) && AllGatesOpen(client.inputs)
  }

  /** What the client reports when nothing raises. */
  ghost function ModeOf(client: Client, plan: WeightsPlan): Mode {
    if client.NullClient? then Fallback
    else if !Publishable(plan.reason, AllWeightsZero(plan)) then Skipped
    else if !Known(client.inputs) then Error
    else if !Ready(client.inputs) then Skipped
    else if client.inputs.publish.DryRunOnly? then DryRun
    else if Consented(client.inputs) then Submitted
    else Error
  }

  /** And the reason it gives: the null client only knows why weights were held back, if they were. */
  function ReportOf(client: Client, plan: WeightsPlan): string {
    match client
    case NullClient =>
      if plan.reason.None? then "offline"
      else if plan.reason.value.AllZero? then "all_zero"
      else "epoch_degraded_all_infra"
    case Subtensor(inputs) => Decide(inputs, plan.reason, AllWeightsZero(plan)).reason
  }

  ghost function ChainCall(client: Client, plan: WeightsPlan): seq<Action> {
    if client.NullClient? then [UseNullChain]
    else if Signs(client, plan) then
      [UseSubtensor(client.inputs), SetWeights(true), WriteReceipt, CompleteAttempt, ReturnFromChain]
    else [UseSubtensor(client.inputs)]
  }

  /** Back from the chain, with the files such a result leaves. */
  ghost function Returned(v: View, client: Client): View {
    var e, plan := v.me.epoch, v.me.plan;
    var result := ChainResult(ModeOf(client, plan), ReportOf(client, plan),
                              if client.NullClient? then None else Some(e));
    View(if client.NullClient? then v.disk else WithFiles(v.disk, e, SettledFiles(e, result)),
         if Signs(client, plan) then v.hist.(calls := v.hist.calls + [Call(e, client.inputs, plan)]) else v.hist,
         v.me.(pc := ChainDone, result := result,
               inputs := if Signs(client, plan) then client.inputs else v.me.inputs))
  }

  lemma DecisionIs(c: ChainInputs, plan: WeightsPlan)
    ensures var decision := Decide(c, plan.reason, AllWeightsZero(plan));
      && (decision.GoLive? <==> Signs(Subtensor(c), plan))
      && ModeOf(Subtensor(c), plan) == if decision.GoLive? then Submitted else decision.mode
  {
    var zero := AllWeightsZero(plan);
    GoesLiveIff(c, plan.reason, zero);
    if Decide(c, plan.reason, zero).Settle? {
      SettlesWithoutSubmitting(c, plan.reason, zero);
      DryRunIff(c, plan.reason, zero);
      ErrorIff(c, plan.reason, zero);
      SkippedIff(c, plan.reason, zero);
    }
  }

  lemma WithFilesTwice(d: Disk, e: int, f: Files, g: Files)
    ensures WithFiles(WithFiles(d, e, f), e, g) == WithFiles(d, e, g) && FilesOf(WithFiles(d, e, f), e) == f
  {
    assert d.epochs[e := f][e := g] == d.epochs[e := g];
  }

  lemma WriteTwice(v: View, f: Files, pc: Pc, g: Files, pc': Pc)
    ensures WriteFilesThen(WriteFilesThen(v, f, pc), g, pc') == WriteFilesThen(v, g, pc')
    ensures Mine(WriteFilesThen(v, f, pc)) == f
  {
    WithFilesTwice(v.disk, v.me.epoch, f, g);
  }

  lemma SettlingRuns(cfg: Config, v: View, client: Client)
    requires v.me.pc.Submitting? && Mine(v) == NO_FILES && !Signs(client, v.me.plan)
    ensures RunActs(cfg, v, ChainCall(client, v.me.plan)) == Returned(v, client)
  {
    if client.Subtensor? {
      DecisionIs(client.inputs, v.me.plan);
      RunActsFirst(cfg, v, UseSubtensor(client.inputs), []);
      assert [UseSubtensor(client.inputs)] + [] == ChainCall(client, v.me.plan);
    } else {
      RunActsFirst(cfg, v, UseNullChain, []);
      assert [UseNullChain] + [] == ChainCall(client, v.me.plan);
    }
  }

  /** The attempt is opened before the seam is crossed, and closed after the receipt is durable. */
  lemma OpeningRuns(cfg: Config, v: View, inputs: ChainInputs)
    requires v.me.pc.Submitting? && Mine(v) == NO_FILES && Signs(Subtensor(inputs), v.me.plan)
    ensures var result := ChainResult(Submitted, ReportOf(Subtensor(inputs), v.me.plan), Some(v.me.epoch));
      Act(cfg, v, UseSubtensor(inputs))
      == WriteFilesThen(v.(me := v.me.(inputs := inputs, result := result)), OpenAttempt(v.me.epoch), AttemptOpen)
  {
    DecisionIs(inputs, v.me.plan);
  }

  const SIGNING := [SetWeights(true), WriteReceipt, CompleteAttempt, ReturnFromChain]

  lemma SigningRuns(cfg: Config, v: View)
    requires v.me.pc.AttemptOpen? && Mine(v) == OpenAttempt(v.me.epoch) && v.me.result.mode.Submitted?
    ensures RunActs(cfg, v, SIGNING)
         == WriteFilesThen(v.(hist := v.hist.(calls := v.hist.calls + [Call(v.me.epoch, v.me.inputs, v.me.plan)])),
                           SettledFiles(v.me.epoch, v.me.result), ChainDone)
  {
    var e := v.me.epoch;
    var receipted := OpenAttempt(e).(receipt := Some(Receipt(e, Submitted, v.me.result.reason)));
    var v1 := Act(cfg, v, SetWeights(true));
    assert Mine(v1) == OpenAttempt(e);
    RunActsFirst(cfg, v, SetWeights(true), [WriteReceipt, CompleteAttempt, ReturnFromChain]);
    FoldThree(Acting(cfg), v1, WriteReceipt, CompleteAttempt, ReturnFromChain);
    assert SIGNING == [SetWeights(true)] + [WriteReceipt, CompleteAttempt, ReturnFromChain];
    assert Act(cfg, v1, WriteReceipt) == WriteFilesThen(v1, receipted, ReceiptDone);
    WriteTwice(v1, receipted, ReceiptDone, SettledFiles(e, v.me.result), AttemptDone);
  }

  lemma ChainCallRuns(cfg: Config, v: View, client: Client)
    requires v.me.pc.Submitting? && Mine(v) == NO_FILES
    ensures RunActs(cfg, v, ChainCall(client, v.me.plan)) == Returned(v, client)
  {
    if Signs(client, v.me.plan) {
      var v1 := Act(cfg, v, UseSubtensor(client.inputs));
      DecisionIs(client.inputs, v.me.plan);
      OpeningRuns(cfg, v, client.inputs);
      assert ChainCall(client, v.me.plan) == [UseSubtensor(client.inputs)] + SIGNING;
      RunActsFirst(cfg, v, UseSubtensor(client.inputs), SIGNING);
      SigningRuns(cfg, v1);
      WithFilesTwice(v.disk, v.me.epoch, OpenAttempt(v.me.epoch), SettledFiles(v.me.epoch, v1.me.result));
    } else {
      SettlingRuns(cfg, v, client);
    }
  }

  /******* From the chain call to the commit *******/

  const FINISH := [Persist, Persist, Persist, Persist, Persist, CommitEpoch, CommitEpoch]

  function ShaOf<T>(sha: Sha, file: Option<T>, content: T -> Content): Option<nat> {
    match file case None => None case Some(x) => Some(sha(content(x)))
  }

  /** Everything a committed epoch leaves in its files. */
  function FilesLeft(sha: Sha, e: int, quota: nat, plan: WeightsPlan, result: ChainResult): Files {
    var attempt := if result.mode == Submitted then Some(Attempt(e, true, Completed, Some(e))) else None;
    var receipt := if result.mode == Fallback then None else Some(Receipt(e, result.mode, result.reason));
    var weights := Weights(e, quota, plan, result.mode, result.reason);
    Files(attempt, receipt, Some(plan.ema), Some(Panel(e)), Some(weights),
          Some(Marker(1, e, result.mode, result.reason,
                      Some(sha(OfSnapshot(plan.ema))), Some(sha(OfWeights(weights))), Some(sha(OfPanel(Panel(e)))),
                      ShaOf(sha, receipt, (r: Receipt) => OfReceipt(r)),
                      ShaOf(sha, attempt, (a: Attempt) => OfAttempt(a)))))
  }

  /** The state a commit leaves. */
  function CommittedState(s: RuntimeState, e: int, receipt: Completion): RuntimeState {
    s.(phase := Some(Committed), lastCompleted := Some(e), lastError := None, lastReceipt := Some(receipt),
       lastSuccess := if receipt.mode in {DryRun, Submitted} then Some(receipt) else s.lastSuccess)
  }

  lemma MarkedIsLeft(cfg: Config, e: int, quota: nat, plan: WeightsPlan, result: ChainResult)
    requires CarriesReceipt(e, result) && Recoverable(result.mode)
    ensures Marked(cfg, e, quota, plan, result) == FilesLeft(cfg.sha, e, quota, plan, result)
  {
    BuiltMarkerVerifies(cfg.sha, e, quota, plan, result);
  }

  lemma ArtifactsRun(cfg: Config, v: View)
    requires v.me.pc.ChainDone? && Mine(v) == SettledFiles(v.me.epoch, v.me.result)
    ensures RunActs(cfg, v, [Persist, Persist, Persist])
         == WriteFilesThen(v, CompleteFiles(v.me.epoch, v.me.setup.quota, v.me.plan, v.me.result), WeightsDone)
  {
    var settled, plan := SettledFiles(v.me.epoch, v.me.result), v.me.plan;
    var snapshot := WithSnapshot(settled, plan);
    var panel := WithPanel(snapshot, v.me.epoch);
    FoldThree(Acting(cfg), v, Persist, Persist, Persist);
    WriteTwice(v, snapshot, SnapshotDone, panel, PanelDone);
    WriteTwice(v, panel, PanelDone, CompleteFiles(v.me.epoch, v.me.setup.quota, plan, v.me.result), WeightsDone);
  }

  /** A process at WeightsDone with all its artifacts on disk. */
  ghost predicate Complete(v: View) {
    && v.me.pc.WeightsDone? && Validates(v.disk.state) && Owns(v.disk.state, v.me.epoch, WeightsSubmitting)
    && Mine(v) == CompleteFiles(v.me.epoch, v.me.setup.quota, v.me.plan, v.me.result)
    && CarriesReceipt(v.me.epoch, v.me.result) && Recoverable(v.me.result.mode)
  }

  lemma MarkerRuns(cfg: Config, v: View)
    requires Complete(v)
    ensures Act(cfg, v, Persist)
         == WriteFilesThen(v, FilesLeft(cfg.sha, v.me.epoch, v.me.setup.quota, v.me.plan, v.me.result), MarkerDone)
  {
    BuiltMarkerVerifies(cfg.sha, v.me.epoch, v.me.setup.quota, v.me.plan, v.me.result);
    MarkedIsLeft(cfg, v.me.epoch, v.me.setup.quota, v.me.plan, v.me.result);
  }

  lemma FilesLeftVerify(cfg: Config, e: int, quota: nat, plan: WeightsPlan, result: ChainResult)
    requires CarriesReceipt(e, result) && Recoverable(result.mode)
    ensures Verify(cfg.sha, FilesLeft(cfg.sha, e, quota, plan, result), e)
         == Ok(Completion(result.mode, result.reason, plan.ema))
    ensures AttemptBlock(FilesLeft(cfg.sha, e, quota, plan, result), e).None?
  {
    BuiltMarkerVerifies(cfg.sha, e, quota, plan, result);
    MarkedIsLeft(cfg, e, quota, plan, result);
  }

  /** A process whose marker is durable. */
  ghost predicate MarkedHere(cfg: Config, v: View) {
    && Validates(v.disk.state) && Owns(v.disk.state, v.me.epoch, WeightsSubmitting)
    && Mine(v) == FilesLeft(cfg.sha, v.me.epoch, v.me.setup.quota, v.me.plan, v.me.result)
    && CarriesReceipt(v.me.epoch, v.me.result) && Recoverable(v.me.result.mode)
  }

  lemma TransitionCommits(cfg: Config, v: View)
    requires MarkedHere(cfg, v)
    ensures TransitionTo(cfg.sha, v.disk, v.me.epoch, Committed)
         == CommitTo(Commit(v.me.plan.ema,
                            CommittedState(v.disk.state, v.me.epoch,
                                           Completion(v.me.result.mode, v.me.result.reason, v.me.plan.ema))))
  {
    FilesLeftVerify(cfg, v.me.epoch, v.me.setup.quota, v.me.plan, v.me.result);
  }

  /** The view a committing process leaves behind. */
  function CommittedView(v: View): View {
    var e, receipt := v.me.epoch, Completion(v.me.result.mode, v.me.result.reason, v.me.plan.ema);
    View(v.disk.(state := CommittedState(v.disk.state, e, receipt), rolling := v.me.plan.ema),
         v.hist.(commits := v.hist.commits + [e]), v.me.(pc := Exiting))
  }

  lemma PublicationRuns(cfg: Config, v: View)
    requires v.me.pc.MarkerDone? && MarkedHere(cfg, v)
    ensures RunActs(cfg, v, [Persist, CommitEpoch, CommitEpoch]) == CommittedView(v)
  {
    FilesLeftVerify(cfg, v.me.epoch, v.me.setup.quota, v.me.plan, v.me.result);
    FoldThree(Acting(cfg), v, Persist, CommitEpoch, CommitEpoch);
    var v1 := At(v.(disk := v.disk.(rolling := v.me.plan.ema)), RollingDone);
    assert Act(cfg, v, Persist) == v1;
    TransitionCommits(cfg, v1);
    var v2 := At(v1, CommitRollingDone);
    assert Act(cfg, v1, CommitEpoch) == v2;
    TransitionCommits(cfg, v2);
  }

  /** Five artifacts, the marker among them, then the average and the state. */
  lemma FinishRuns(cfg: Config, v: View)
    requires v.me.pc.ChainDone? && Validates(v.disk.state) && Owns(v.disk.state, v.me.epoch, WeightsSubmitting)
    requires Mine(v) == SettledFiles(v.me.epoch, v.me.result)
    requires CarriesReceipt(v.me.epoch, v.me.result) && Recoverable(v.me.result.mode)
    ensures RunActs(cfg, v, FINISH)
         == CommittedView(v.(disk := WithFiles(v.disk, v.me.epoch,
                                               FilesLeft(cfg.sha, v.me.epoch, v.me.setup.quota, v.me.plan,
                                                         v.me.result))))
  {
    var e, result := v.me.epoch, v.me.result;
    var complete := CompleteFiles(e, v.me.setup.quota, v.me.plan, result);
    var left := FilesLeft(cfg.sha, e, v.me.setup.quota, v.me.plan, result);
    var v1 := WriteFilesThen(v, complete, WeightsDone);
    var v2 := WriteFilesThen(v, left, MarkerDone);
    assert FINISH == [Persist, Persist, Persist] + ([Persist] + [Persist, CommitEpoch, CommitEpoch]);
    RunActsConcat(cfg, v, [Persist, Persist, Persist], [Persist] + [Persist, CommitEpoch, CommitEpoch]);
    ArtifactsRun(cfg, v);
    WriteTwice(v, complete, WeightsDone, left, MarkerDone);
    WriteTwice(v, left, MarkerDone, left, MarkerDone);
    RunActsFirst(cfg, v1, Persist, [Persist, CommitEpoch, CommitEpoch]);
    MarkerRuns(cfg, v1);
    PublicationRuns(cfg, v2);
  }

  /******* A whole tick *******/

  /** The actions of a tick that nothing interrupts, from entry to the last write of its commit. */
  ghost function TickScript(cfg: Config, base: Ema, queried: bool, setup: Setup, outcomes: seq<Outcome>,
                            client: Client): seq<Action> {
    Evaluation(queried, setup, outcomes) + (ChainCall(client, cfg.plan(base, setup, outcomes)) + FINISH)
  }

  ghost function ResultOf(e: int, client: Client, plan: WeightsPlan): ChainResult {
    ChainResult(ModeOf(client, plan), ReportOf(client, plan), if client.NullClient? then None else Some(e))
  }

  /** The disk such a tick leaves: only its own epoch's files and rows are new, the average and the state follow. */
  ghost function DiskLeft(cfg: Config, d: Disk, e: int, setup: Setup, outcomes: seq<Outcome>, client: Client): Disk {
    var plan := cfg.plan(d.rolling, setup, outcomes);
    var result := ResultOf(e, client, plan);
    Disk(CommittedState(d.state, e, Completion(result.mode, result.reason, plan.ema)),
         d.epochs[e := FilesLeft(cfg.sha, e, setup.quota, plan, result)], plan.ema, d.rows + Logged(e, outcomes))
  }

  ghost function HistLeft(cfg: Config, d: Disk, h: Hist, e: int, setup: Setup, outcomes: seq<Outcome>,
                          client: Client): Hist {
    var plan := cfg.plan(d.rolling, setup, outcomes);
    h.(evaluated := h.evaluated + [e], setups := h.setups[e := setup], commits := h.commits + [e],
       calls := if Signs(client, plan) then h.calls + [Call(e, client.inputs, plan)] else h.calls)
  }

  lemma ClosingRuns(cfg: Config, v: View, client: Client)
    requires v.me.pc.Submitting? && Mine(v) == NO_FILES
    requires Validates(v.disk.state) && Owns(v.disk.state, v.me.epoch, WeightsSubmitting)
    ensures var result := ResultOf(v.me.epoch, client, v.me.plan);
      RunActs(cfg, v, ChainCall(client, v.me.plan) + FINISH)
      == CommittedView(View(WithFiles(v.disk, v.me.epoch,
                                      FilesLeft(cfg.sha, v.me.epoch, v.me.setup.quota, v.me.plan, result)),
                            Returned(v, client).hist, Returned(v, client).me))
  {
    var e, v1, result := v.me.epoch, Returned(v, client), ResultOf(v.me.epoch, client, v.me.plan);
    RunActsConcat(cfg, v, ChainCall(client, v.me.plan), FINISH);
    ChainCallRuns(cfg, v, client);
    WithFilesTwice(v.disk, e, SettledFiles(e, result), FilesLeft(cfg.sha, e, v.me.setup.quota, v.me.plan, result));
    FinishRuns(cfg, v1);
  }

  lemma TickRuns(cfg: Config, v: View, queried: bool, setup: Setup, outcomes: seq<Outcome>, client: Client)
    requires v.me.pc.Entered? && Validates(v.disk.state) && Owns(v.disk.state, v.me.epoch, Allocated)
    requires Mine(v) == NO_FILES && FromActive(setup, outcomes)
    ensures var v' := RunActs(cfg, v, TickScript(cfg, v.disk.rolling, queried, setup, outcomes, client));
      && v'.disk == DiskLeft(cfg, v.disk, v.me.epoch, setup, outcomes, client)
      && v'.hist == HistLeft(cfg, v.disk, v.hist, v.me.epoch, setup, outcomes, client)
      && v'.me.pc.Exiting? && v'.me.epoch == v.me.epoch
  {
    var v1 := Evaluated(cfg, v, setup, outcomes);
    var closing := ChainCall(client, v1.me.plan) + FINISH;
    RunActsConcat(cfg, v, Evaluation(queried, setup, outcomes), closing);
    EvaluationRuns(cfg, v, queried, setup, outcomes);
    assert Mine(v1) == Mine(v);
    ClosingRuns(cfg, v1, client);
  }

  lemma ScriptIsBody(cfg: Config, base: Ema, queried: bool, setup: Setup, outcomes: seq<Outcome>, client: Client)
    ensures var script := TickScript(cfg, base, queried, setup, outcomes, client);
      forall i :: 0 <= i < |script| ==> BodyAction(script[i])
  {
  }

  /**
   From any reachable world in which p has entered, whether or not it marks querying, whatever it measured
   and whatever its chain client answered: if it takes the steps of a tick and nothing fails, its epoch is
   committed, with exactly this disk and history, however the other processes interleave and crash.
   */
  lemma UninterruptedTickCommits(cfg: Config, w: World, p: Pid, events: seq<Event>, queried: bool, setup: Setup,
                                 outcomes: seq<Outcome>, client: Client)
    requires Reachable(cfg, w) && LocalOf(w, p).pc.Entered? && FromActive(setup, outcomes)
    requires Own(p, events) == Doing(p, TickScript(cfg, w.disk.rolling, queried, setup, outcomes, client))
    ensures var e, w' := LocalOf(w, p).epoch, Run(cfg, w, events);
      && w.disk.state.active == Some(e)
      && w'.disk == DiskLeft(cfg, w.disk, e, setup, outcomes, client)
      && w'.hist == HistLeft(cfg, w.disk, w.hist, e, setup, outcomes, client)
      && RowsOf(w'.disk.rows, e) == outcomes
      && w'.lock == Some(p) && LocalOf(w', p).pc.Exiting?
      && Step(cfg, w', Do(p, Exit(None))) == w'.(lock := None, procs := w'.procs[p := BLANK])
  {
    ReachableInv(cfg, w);
    var v, script := ViewOf(w, p), TickScript(cfg, w.disk.rolling, queried, setup, outcomes, client);
    assert Untouched(w.disk.state, v.me.epoch);
    RowsOfLogged(w.disk.rows, v.me.epoch, outcomes);
    TickRuns(cfg, v, queried, setup, outcomes, client);
    ScriptIsBody(cfg, w.disk.rolling, queried, setup, outcomes, client);
    Undisturbed(cfg, w, p, events, script);
    CommittedExits(cfg, Run(cfg, w, events), p);
  }

  lemma {:induction false} RowsOfLogged(rows: seq<Row>, e: int, outcomes: seq<Outcome>)
    ensures RowsOf(rows + Logged(e, outcomes), e) == RowsOf(rows, e) + outcomes
  {
    if outcomes == [] {
      assert rows + Logged(e, outcomes) == rows;
    } else {
      var n := |outcomes| - 1;
      RowsOfLogged(rows, e, outcomes[..n]);
      RowsOfAppend(rows + Logged(e, outcomes[..n]), Row(e, outcomes[n]), e);
      assert rows + Logged(e, outcomes[..n]) + [Row(e, outcomes[n])] == rows + Logged(e, outcomes);
      assert outcomes[..n] + [outcomes[n]] == outcomes;
    }
  }

  lemma CommittedExits(cfg: Config, w: World, p: Pid)
    requires LocalOf(w, p).pc.Exiting? && w.lock == Some(p) && w.disk.state.phase != Some(Evaluating)
    ensures Step(cfg, w, Do(p, Exit(None))) == w.(lock := None, procs := w.procs[p := BLANK])
  {
  }
}
