/** How the server classifies accepted evidence. */
module Outcome {
  import opened Evidence

  datatype Verdict =
    | BaselineInvalid
    | PolicyDenial
    | ReviewRequiredFinding
    | VerificationInfrastructureError
    | CandidateRegressionObserved
    | ConfiguredChecksPassed

  /** The commands of one world; a missing world has none. */
  function World(e: PublicEvidence, world: string): seq<PublicCommand> {
    if world in e.verification then e.verification[world] else []
  }

  predicate AnyStatus(commands: seq<PublicCommand>, statuses: set<PublicCommandStatus>) {
    commands != [] && (commands[0].status in statuses || AnyStatus(commands[1..], statuses))
  }

  lemma {:induction false} AnyStatusExact(commands: seq<PublicCommand>, statuses: set<PublicCommandStatus>)
    ensures AnyStatus(commands, statuses) <==> exists k :: 0 <= k < |commands| && commands[k].status in statuses
  {
    if commands != [] {
      AnyStatusExact(commands[1..], statuses);
      if AnyStatus(commands[1..], statuses) {
        var k :| 0 <= k < |commands[1..]| && commands[1..][k].status in statuses;
        assert commands[k + 1].status in statuses;
      }
      if k :| 0 < k < |commands| && commands[k].status in statuses {
        assert commands[1..][k - 1].status in statuses;
      }
    }
  }

  function ClassifyOutcome(e: PublicEvidence): Verdict {
    var baseline := World(e, "baseline");
    var candidate := World(e, "candidate");
    if AnyStatus(baseline, {PublicFailed, PublicTimeout, PublicError}) then BaselineInvalid
    else if e.policy.outcome == "POLICY_DENIED" then PolicyDenial
    else if e.policy.outcome == "REVIEW_REQUIRED" then ReviewRequiredFinding
    else if AnyStatus(candidate, {PublicError}) then VerificationInfrastructureError
    else if AnyStatus(candidate, {PublicFailed, PublicTimeout}) then CandidateRegressionObserved
    else if AnyStatus(candidate, {PublicPassed}) then ConfiguredChecksPassed
    else ReviewRequiredFinding
  }

  predicate Has(commands: seq<PublicCommand>, status: PublicCommandStatus) {
    exists k :: 0 <= k < |commands| && commands[k].status == status
  }

  /** When each verdict is given. A failing baseline hides everything else, a policy
      finding hides the candidate, and an error hides a regression; evidence without
      a single passed check is never reported as passing. */
  lemma Verdicts(e: PublicEvidence)
    ensures var b, c := World(e, "baseline"), World(e, "candidate");
      var invalid := Has(b, PublicFailed) || Has(b, PublicTimeout) || Has(b, PublicError);
      var clear := !invalid && e.policy.outcome != "POLICY_DENIED" && e.policy.outcome != "REVIEW_REQUIRED";
      var regressed := Has(c, PublicFailed) || Has(c, PublicTimeout);
      && (ClassifyOutcome(e) == BaselineInvalid <==> invalid)
      && (ClassifyOutcome(e) == PolicyDenial <==> !invalid && e.policy.outcome == "POLICY_DENIED")
      && (ClassifyOutcome(e) == VerificationInfrastructureError <==> clear && Has(c, PublicError))
      && (ClassifyOutcome(e) == CandidateRegressionObserved <==> clear && !Has(c, PublicError) && regressed)
      && (ClassifyOutcome(e) == ConfiguredChecksPassed <==>
            clear && !Has(c, PublicError) && !regressed && Has(c, PublicPassed))
  {
    assert "POLICY_DENIED"[0] != "REVIEW_REQUIRED"[0];
    AnyStatusExact(World(e, "baseline"), {PublicFailed, PublicTimeout, PublicError});
    AnyStatusExact(World(e, "candidate"), {PublicError});
    AnyStatusExact(World(e, "candidate"), {PublicFailed, PublicTimeout});
    AnyStatusExact(World(e, "candidate"), {PublicPassed});
  }
}
