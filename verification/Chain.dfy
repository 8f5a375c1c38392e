/**
 The decision `SubtensorChain.apply_weights` takes before it may cross the signing seam
 (src/dolores_subnet/chain.py). Everything read from the chain or the environment is an input.
 */
module Chain {
  import opened Common
  import opened Replay

  /** Outcome modes. A client outside this repository may report anything else. */
  datatype Mode = DryRun | Submitted | Fallback | Skipped | Error | Foreign(name: string)

  datatype Publish = DryRunOnly | LivePublish

  datatype Readiness = Readiness(subnetExists: bool, validatorUid: Option<int>, permit: bool,
                                 rateLimit: Option<int>, sinceUpdate: Option<int>,
                                 commitReveal: Option<bool>, probeFailed: bool)

  /** `readiness` is None when the preflight read raised. */
  datatype ChainInputs = ChainInputs(netuidSet: bool, readiness: Option<Readiness>, anyRegistered: bool,
                                     publish: Publish, allowExtrinsics: bool, keystone: bool, confirmed: bool,
                                     allowCommitReveal: bool)

  datatype Decision = Settle(mode: Mode, reason: string) | GoLive(reason: string)

  function SkipReason(r: Readiness, allowCommitReveal: bool): Option<string> {
    if !r.subnetExists then Some("netuid_absent")
    else if r.validatorUid.None? then Some("validator_unregistered")
    else if !r.permit then Some("no_permit")
    else if r.rateLimit.Some? && r.sinceUpdate.Some? && r.sinceUpdate.value < r.rateLimit.value then
      Some("rate_limited")
    else if r.commitReveal.None? || r.probeFailed then Some("commit_reveal_probe_failed")
    else if r.commitReveal.value && !allowCommitReveal then Some("commit_reveal_enabled")
    else None
  }

  function MissingGates(c: ChainInputs): seq<string> {
    (if c.allowExtrinsics then [] else ["client_flag"]) +
    (if c.keystone then [] else ["env"]) +
    (if c.publish.LivePublish? then [] else ["cli_live"]) +
    (if c.confirmed then [] else ["confirmation"])
  }

  function Decide(c: ChainInputs, reason: Option<WeightReason>, allZero: bool): Decision {
    if reason.Some? || allZero then
      Settle(Skipped, if reason == Some(DegradedAllInfra) then "epoch_degraded_all_infra" else "all_zero")
    else if !c.netuidSet then Settle(Error, "netuid_unset")
    else if c.readiness.None? then Settle(Error, "rpc_unreachable")
    else
      var r := c.readiness.value;
      var skip := SkipReason(r, c.allowCommitReveal);
      if skip.Some? then
        Settle(if skip.value in ["netuid_absent", "validator_unregistered"] then Error else Skipped, skip.value)
      else if !c.anyRegistered then Settle(Skipped, "no_registered_miners")
      else if c.publish.DryRunOnly? then Settle(DryRun, "dry_run_ok")
      else if MissingGates(c) != [] then Settle(Error, "extrinsics_not_allowed")
      else GoLive(if r.commitReveal == Some(true) then "submitted_commit_reveal" else "submitted_ok")
  }

  /******* What the decision is *******/

  /** The weights are worth publishing. */
  ghost predicate Publishable(reason: Option<WeightReason>, allZero: bool) {
    reason.None? && !allZero
  }

  /** The chain knows this validator: a netuid is set, the preflight answered, subnet and validator exist. */
  ghost predicate Known(c: ChainInputs) {
    c.netuidSet && c.readiness.Some? && c.readiness.value.subnetExists && c.readiness.value.validatorUid.Some?
  }

  ghost predicate TooSoon(r: Readiness) {
    r.rateLimit.Some? && r.sinceUpdate.Some? && r.sinceUpdate.value < r.rateLimit.value
  }

  ghost predicate ProbeFailed(r: Readiness) {
    r.commitReveal.None? || r.probeFailed
  }

  /** And would take its weights now. */
  ghost predicate Ready(c: ChainInputs) {
    && Known(c) && c.anyRegistered
    && c.readiness.value.permit && !TooSoon(c.readiness.value) && !ProbeFailed(c.readiness.value)
    && (c.readiness.value.commitReveal == Some(true) ==> c.allowCommitReveal)
  }

  /** The four consents to a signed extrinsic. */
  ghost predicate Consented(c: ChainInputs) {
    c.publish.LivePublish? && c.allowExtrinsics && c.keystone && c.confirmed
  }

  /** Every condition that has to hold before a signed extrinsic may leave the process. */
  ghost predicate AllGatesOpen(c: ChainInputs) {
    Ready(c) && Consented(c)
  }

  /** The client goes live exactly when the weights are publishable and every gate is open. */
  lemma GoesLiveIff(c: ChainInputs, reason: Option<WeightReason>, allZero: bool)
    ensures Decide(c, reason, allZero).GoLive? <==> Publishable(reason, allZero) && AllGatesOpen(c)
  {
  }

  /** It rehearses exactly when publishable weights meet a ready chain and only a rehearsal was asked for. */
  lemma DryRunIff(c: ChainInputs, reason: Option<WeightReason>, allZero: bool)
    ensures Decide(c, reason, allZero) == Settle(DryRun, "dry_run_ok")
       <==> Publishable(reason, allZero) && Ready(c) && c.publish.DryRunOnly?
    ensures Decide(c, reason, allZero).Settle? && Decide(c, reason, allZero).mode == DryRun ==> c.publish.DryRunOnly?
  {
  }

  /** It reports an error exactly when the chain does not know it, or a live publish lacks a consent. */
  lemma ErrorIff(c: ChainInputs, reason: Option<WeightReason>, allZero: bool)
    ensures (Decide(c, reason, allZero).Settle? && Decide(c, reason, allZero).mode == Error)
       <==> Publishable(reason, allZero)
            && (!Known(c) || (Ready(c) && c.publish.LivePublish? && !Consented(c)))
  {
  }

  /** It skips exactly when there is nothing to publish or a chain that knows it is not ready. */
  lemma SkippedIff(c: ChainInputs, reason: Option<WeightReason>, allZero: bool)
    ensures (Decide(c, reason, allZero).Settle? && Decide(c, reason, allZero).mode == Skipped)
       <==> !Publishable(reason, allZero) || (Known(c) && !Ready(c))
  {
  }

  /** So what it settles without submitting is always a receipt a later tick may discard. */
  lemma SettlesWithoutSubmitting(c: ChainInputs, reason: Option<WeightReason>, allZero: bool)
    requires Decide(c, reason, allZero).Settle?
    ensures Decide(c, reason, allZero).mode in {DryRun, Skipped, Error}
  {
    DryRunIff(c, reason, allZero);
    ErrorIff(c, reason, allZero);
    SkippedIff(c, reason, allZero);
  }

  /** Each skip says why: the first of the causes, in this order. */
  lemma SkippedSays(c: ChainInputs, reason: Option<WeightReason>, allZero: bool)
    requires Decide(c, reason, allZero).Settle? && Decide(c, reason, allZero).mode == Skipped
    ensures var text, r := Decide(c, reason, allZero).reason, c.readiness;
      && (text == "epoch_degraded_all_infra" <==> reason == Some(DegradedAllInfra))
      && (text == "all_zero" <==> !Publishable(reason, allZero) && reason != Some(DegradedAllInfra))
      && (Publishable(reason, allZero) ==>
          && (text == "no_permit" <==> !r.value.permit)
          && (text == "rate_limited" <==> r.value.permit && TooSoon(r.value))
          && (text == "commit_reveal_probe_failed" <==> r.value.permit && !TooSoon(r.value) && ProbeFailed(r.value))
          && (text == "commit_reveal_enabled" <==>
                r.value.permit && !TooSoon(r.value) && !ProbeFailed(r.value)
                && r.value.commitReveal.value && !c.allowCommitReveal)
          && (text == "no_registered_miners" <==> Ready(c.(anyRegistered := true)) && !c.anyRegistered))
  {
  }

  /** And each error, and each live submission. */
  lemma ErrorSays(c: ChainInputs, reason: Option<WeightReason>, allZero: bool)
    requires Decide(c, reason, allZero).Settle? && Decide(c, reason, allZero).mode == Error
    ensures var text, r := Decide(c, reason, allZero).reason, c.readiness;
      && (text == "netuid_unset" <==> !c.netuidSet)
      && (text == "rpc_unreachable" <==> c.netuidSet && r.None?)
      && (text == "netuid_absent" <==> c.netuidSet && r.Some? && !r.value.subnetExists)
      && (text == "validator_unregistered" <==>
            c.netuidSet && r.Some? && r.value.subnetExists && r.value.validatorUid.None?)
      && (text == "extrinsics_not_allowed" <==> Known(c))
  {
  }

  lemma LiveSays(c: ChainInputs, reason: Option<WeightReason>, allZero: bool)
    requires Decide(c, reason, allZero).GoLive?
    ensures Decide(c, reason, allZero).reason
         == if c.readiness.value.commitReveal == Some(true) then "submitted_commit_reveal" else "submitted_ok"
  {
  }

  /** The refused live publish lists exactly the consents that are missing. */
  lemma MissingGatesIff(c: ChainInputs)
    ensures MissingGates(c) == [] <==> Consented(c)
    ensures "client_flag" in MissingGates(c) <==> !c.allowExtrinsics
    ensures "env" in MissingGates(c) <==> !c.keystone
    ensures "cli_live" in MissingGates(c) <==> !c.publish.LivePublish?
    ensures "confirmation" in MissingGates(c) <==> !c.confirmed
  {
  }
}
