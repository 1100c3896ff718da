/** What the results and the evidence of a verification say of what the sandbox
    reported, command by command. */
module Reports {
  import opened Wrappers
  import opened Evidence
  import opened Outcome
  import opened Pipeline

  // ---- How the runs decide ----

  predicate Succeeded(run: SandboxRun) {
    !run.timedOut && run.exitCode == Some(0)
  }

  /** From position `i` on, every command before `k` succeeded. */
  predicate Reached(plan: seq<Planned>, runs: Runs, i: nat, k: int)
    requires k <= |plan|
  {
    forall j | i <= j < k :: plan[j].command.Some? ==> runs(j).Some? && Succeeded(runs(j).value)
  }

  /** The command at `k` is reached, and its run timed out or did not exit with 0. */
  predicate FailsAt(plan: seq<Planned>, runs: Runs, i: nat, k: int) {
    i <= k < |plan| && Reached(plan, runs, i, k) && plan[k].command.Some? && runs(k).Some? && !Succeeded(runs(k).value)
  }

  /** The command at `k` is reached, and the sandbox itself fails. */
  predicate BreaksAt(plan: seq<Planned>, runs: Runs, i: nat, k: int) {
    i <= k < |plan| && Reached(plan, runs, i, k) && plan[k].command.Some? && runs(k).None?
  }

  ghost predicate Fails(plan: seq<Planned>, runs: Runs) {
    exists k :: FailsAt(plan, runs, 0, k)
  }

  ghost predicate Breaks(plan: seq<Planned>, runs: Runs) {
    exists k :: BreaksAt(plan, runs, 0, k)
  }

  // ---- One result ----

  /** The result of a planned command: not configured without a command, and
      otherwise what its run reports. */
  predicate ResultReports(planned: Planned, run: Option<SandboxRun>, result: CommandResult, emptyDigest: string) {
    && result.name == planned.name && result.cpuMs == None && result.peakMemoryBytes == None
    && (planned.command.None? ==>
        && result.status == NotConfigured && result.exitCode == None && result.durationMs == 0
        && result.stdoutDigest == emptyDigest && result.stderrDigest == emptyDigest)
    && (planned.command.Some? ==>
        && run.Some?
        && result.exitCode == run.value.exitCode && result.durationMs == run.value.durationMs
        && result.stdoutDigest == run.value.stdoutDigest && result.stderrDigest == run.value.stderrDigest
        && (result.status == Passed <==> Succeeded(run.value))
        && (result.status == TimedOut <==> run.value.timedOut)
        && result.status in {Passed, TimedOut, Failed})
  }

  /** The processes of the first `n` positions from `i` on, in order. */
  function ProcessesOf(plan: seq<Planned>, runs: Runs, i: nat, n: nat): seq<ProcessObservation>
    requires i + n <= |plan|
    decreases n
  {
    if n == 0 then []
    else
      (if plan[i].command.Some? && runs(i).Some? then runs(i).value.processes else []) +
      ProcessesOf(plan, runs, i + 1, n - 1)
  }

  /** The duration of the first `n` positions from `i` on, together. */
  function DurationOf(plan: seq<Planned>, runs: Runs, i: nat, n: nat): nat
    requires i + n <= |plan|
    decreases n
  {
    if n == 0 then 0
    else
      (if plan[i].command.Some? && runs(i).Some? then runs(i).value.durationMs else 0) +
      DurationOf(plan, runs, i + 1, n - 1)
  }

  predicate AllReported(plan: seq<Planned>, runs: Runs, i: nat, results: seq<CommandResult>, emptyDigest: string) {
    && i + |results| <= |plan|
    && forall k | 0 <= k < |results| :: ResultReports(plan[i + k], runs(i + k), results[k], emptyDigest)
  }

  /** Where the results stop: at the end of the plan, or behind the failure. */
  ghost predicate StopsRight(plan: seq<Planned>, runs: Runs, i: nat, size: nat) {
    && i + size <= |plan|
    && (forall k | FailsAt(plan, runs, i, k) :: i + size == k + 1)
    && ((forall k :: !FailsAt(plan, runs, i, k)) ==> i + size == |plan|)
  }

  lemma FailsLater(plan: seq<Planned>, runs: Runs, i: nat, k: int)
    requires i < |plan| && (plan[i].command.Some? ==> runs(i).Some? && Succeeded(runs(i).value))
    ensures FailsAt(plan, runs, i, k) <==> FailsAt(plan, runs, i + 1, k)
    ensures BreaksAt(plan, runs, i, k) <==> BreaksAt(plan, runs, i + 1, k)
  {
    if i < k < |plan| {
      assert Reached(plan, runs, i, k) <==> Reached(plan, runs, i + 1, k);
    }
  }

  lemma BreaksLater(plan: seq<Planned>, runs: Runs, i: nat, next: nat)
    requires i < |plan| && next == i + 1
    requires plan[i].command.Some? ==> runs(i).Some? && Succeeded(runs(i).value)
    ensures (exists k :: BreaksAt(plan, runs, i, k)) <==> (exists k :: BreaksAt(plan, runs, next, k))
  {
    if k :| BreaksAt(plan, runs, i, k) {
      FailsLater(plan, runs, i, k);
    }
    if k :| BreaksAt(plan, runs, next, k) {
      FailsLater(plan, runs, i, k);
    }
  }

  lemma StopsLater(plan: seq<Planned>, runs: Runs, i: nat, next: nat, size: nat)
    requires i < |plan| && next == i + 1
    requires plan[i].command.Some? ==> runs(i).Some? && Succeeded(runs(i).value)
    requires StopsRight(plan, runs, next, size)
    ensures StopsRight(plan, runs, i, size + 1)
  {
    forall k
      ensures FailsAt(plan, runs, i, k) <==> FailsAt(plan, runs, next, k)
    {
      FailsLater(plan, runs, i, k);
    }
  }

  /** At a command that does not succeed, execution stops there and nowhere else. */
  lemma StopsHere(plan: seq<Planned>, runs: Runs, i: nat, k: int)
    requires i < |plan| && plan[i].command.Some? && (runs(i).Some? ==> !Succeeded(runs(i).value))
    ensures FailsAt(plan, runs, i, k) <==> k == i && runs(i).Some?
    ensures BreaksAt(plan, runs, i, k) <==> k == i && runs(i).None?
  {
  }

  lemma AllReportedFrom(plan: seq<Planned>, runs: Runs, i: nat, first: CommandResult, rest: seq<CommandResult>,
      emptyDigest: string)
    requires i < |plan| && ResultReports(plan[i], runs(i), first, emptyDigest)
    requires AllReported(plan, runs, i + 1, rest, emptyDigest)
    ensures AllReported(plan, runs, i, [first] + rest, emptyDigest)
  {
    var results := [first] + rest;
    forall k | 0 <= k < |results|
      ensures ResultReports(plan[i + k], runs(i + k), results[k], emptyDigest)
    {
      if k > 0 {
        assert ResultReports(plan[i + 1 + (k - 1)], runs(i + 1 + (k - 1)), rest[k - 1], emptyDigest);
      }
    }
  }

  /** What the sandbox reported is what the results say, command by command: nothing
      is given exactly when the sandbox fails at a command that is reached. */
  ghost predicate Executes(plan: seq<Planned>, runs: Runs, emptyDigest: string, i: nat, r: Option<Executed>) {
    && (r.None? <==> exists k :: BreaksAt(plan, runs, i, k))
    && (r.Some? ==>
        && AllReported(plan, runs, i, r.value.results, emptyDigest)
        && StopsRight(plan, runs, i, |r.value.results|)
        && r.value.processes == ProcessesOf(plan, runs, i, |r.value.results|))
  }

  lemma ExecutesFrom(plan: seq<Planned>, runs: Runs, emptyDigest: string, i: nat, first: CommandResult,
      processes: seq<ProcessObservation>, rest: Option<Executed>)
    requires i < |plan| && ResultReports(plan[i], runs(i), first, emptyDigest)
    requires plan[i].command.Some? ==> runs(i).Some? && Succeeded(runs(i).value) && processes == runs(i).value.processes
    requires plan[i].command.None? ==> processes == []
    requires Executes(plan, runs, emptyDigest, i + 1, rest)
    ensures Executes(plan, runs, emptyDigest, i, Prepend([first], processes, rest))
  {
    BreaksLater(plan, runs, i, i + 1);
    if rest.Some? {
      AllReportedFrom(plan, runs, i, first, rest.value.results, emptyDigest);
      StopsLater(plan, runs, i, i + 1, |rest.value.results|);
    }
  }

  lemma ExecutesLast(plan: seq<Planned>, runs: Runs, emptyDigest: string, i: nat, first: CommandResult)
    requires i < |plan| && ResultReports(plan[i], runs(i), first, emptyDigest)
    requires plan[i].command.Some? && runs(i).Some? && !Succeeded(runs(i).value)
    ensures Executes(plan, runs, emptyDigest, i, Some(Executed([first], runs(i).value.processes)))
  {
    forall k
      ensures FailsAt(plan, runs, i, k) <==> k == i
      ensures !BreaksAt(plan, runs, i, k)
    {
      StopsHere(plan, runs, i, k);
    }
    assert FailsAt(plan, runs, i, i);
    assert ProcessesOf(plan, runs, i, 1) == runs(i).value.processes + ProcessesOf(plan, runs, i + 1, 0);
  }

  lemma {:induction false} ExecutingReports(plan: seq<Planned>, runs: Runs, emptyDigest: string, i: nat)
    requires i <= |plan|
    ensures Executes(plan, runs, emptyDigest, i, Executing(plan, runs, emptyDigest, i))
    decreases |plan| - i
  {
    if i < |plan| {
      if plan[i].command.None? {
        ExecutingReports(plan, runs, emptyDigest, i + 1);
        ExecutesFrom(plan, runs, emptyDigest, i, NotConfiguredResult(plan[i].name, emptyDigest), [],
            Executing(plan, runs, emptyDigest, i + 1));
      } else if runs(i).None? {
        StopsHere(plan, runs, i, i);
      } else if Succeeded(runs(i).value) {
        ExecutingReports(plan, runs, emptyDigest, i + 1);
        ExecutesFrom(plan, runs, emptyDigest, i, RunResult(plan[i].name, runs(i).value), runs(i).value.processes,
            Executing(plan, runs, emptyDigest, i + 1));
      } else {
        ExecutesLast(plan, runs, emptyDigest, i, RunResult(plan[i].name, runs(i).value));
      }
    }
  }

  // ---- The gate ----

  /** A result of the results failed exactly when a run that was reached did. */
  lemma FailureShows(plan: seq<Planned>, runs: Runs, emptyDigest: string, results: seq<CommandResult>)
    requires AllReported(plan, runs, 0, results, emptyDigest) && StopsRight(plan, runs, 0, |results|)
    ensures GateCloses(results) <==> Fails(plan, runs)
    ensures Fails(plan, runs) ==> results != [] && FailsAt(plan, runs, 0, |results| - 1)
  {
    if k :| FailsAt(plan, runs, 0, k) {
      assert k + 1 == |results|;
      assert ResultReports(plan[0 + k], runs(0 + k), results[k], emptyDigest);
    }
    if k :| 0 <= k < |results| && results[k].status in {Failed, TimedOut, InfrastructureFailure} {
      EarliestFailure(plan, runs, emptyDigest, results, k);
    }
  }

  lemma {:induction false} EarliestFailure(plan: seq<Planned>, runs: Runs, emptyDigest: string,
      results: seq<CommandResult>, k: nat)
    requires AllReported(plan, runs, 0, results, emptyDigest)
    requires k < |results| && results[k].status in {Failed, TimedOut, InfrastructureFailure}
    ensures Fails(plan, runs)
  {
    assert ResultReports(plan[0 + k], runs(0 + k), results[k], emptyDigest);
    if Reached(plan, runs, 0, k) {
      assert FailsAt(plan, runs, 0, k);
    } else {
      var j :| 0 <= j < k && plan[j].command.Some? && (runs(j).None? || !Succeeded(runs(j).value));
      assert ResultReports(plan[0 + j], runs(0 + j), results[j], emptyDigest);
      EarliestFailure(plan, runs, emptyDigest, results, j);
    }
  }

  /** How the runs decide a verification that was prepared: the baseline is turned down
      exactly when a command of it that was reached timed out or did not exit with 0, and
      the sandbox is blamed exactly when it failed there, or in the candidate after a
      baseline that passed. */
  lemma GateOverRuns(inputs: Inputs)
    requires inputs.prepared
    ensures Answers(inputs, Err(BaselineDoesNotPass)) <==> Fails(inputs.plan, inputs.baselineRuns)
    ensures Answers(inputs, Err(SandboxUnavailable)) <==>
      || Breaks(inputs.plan, inputs.baselineRuns)
      || (!Fails(inputs.plan, inputs.baselineRuns) && Breaks(inputs.plan, inputs.candidateRuns))
  {
    ExecutingReports(inputs.plan, inputs.baselineRuns, inputs.emptyDigest, 0);
    ExecutingReports(inputs.plan, inputs.candidateRuns, inputs.emptyDigest, 0);
    var baseline := Executing(inputs.plan, inputs.baselineRuns, inputs.emptyDigest, 0);
    if baseline.Some? {
      FailureShows(inputs.plan, inputs.baselineRuns, inputs.emptyDigest, baseline.value.results);
    } else {
      FailsOrBreaks(inputs.plan, inputs.baselineRuns);
    }
  }

  lemma FailsOrBreaks(plan: seq<Planned>, runs: Runs)
    requires Breaks(plan, runs)
    ensures !Fails(plan, runs)
  {
    var k :| BreaksAt(plan, runs, 0, k);
    forall j
      ensures !FailsAt(plan, runs, 0, j)
    {
      assert j < k && Reached(plan, runs, 0, k) ==> !FailsAt(plan, runs, 0, j);
    }
  }

  // ---- The published evidence ----

  /** What is published of a planned command. */
  predicate Publishes(planned: Planned, run: Option<SandboxRun>, command: PublicCommand) {
    && command.name == planned.name
    && (planned.command.None? ==> command.status == PublicNotConfigured && command.exitCode == None)
    && (planned.command.Some? ==>
        && run.Some? && command.exitCode == run.value.exitCode
        && (command.status == PublicPassed <==> Succeeded(run.value))
        && (command.status == PublicTimeout <==> run.value.timedOut)
        && command.status in {PublicPassed, PublicTimeout, PublicFailed})
  }

  lemma ResultsPublish(plan: seq<Planned>, runs: Runs, emptyDigest: string, results: seq<CommandResult>)
    requires AllReported(plan, runs, 0, results, emptyDigest)
    ensures |PublicResults(results)| == |results|
    ensures forall k | 0 <= k < |results| :: Publishes(plan[k], runs(k), PublicResults(results)[k])
  {
    forall k | 0 <= k < |results|
      ensures Publishes(plan[k], runs(k), PublicResults(results)[k])
    {
      assert ResultReports(plan[0 + k], runs(0 + k), results[k], emptyDigest);
    }
  }

  lemma {:induction false} DurationFirst(first: CommandResult, rest: seq<CommandResult>)
    ensures TotalDuration([first] + rest) == first.durationMs + TotalDuration(rest)
  {
    var results := [first] + rest;
    if rest != [] {
      assert results[..|results| - 1] == [first] + rest[..|rest| - 1];
      DurationFirst(first, rest[..|rest| - 1]);
    }
  }

  lemma TailReported(plan: seq<Planned>, runs: Runs, i: nat, results: seq<CommandResult>, emptyDigest: string)
    requires AllReported(plan, runs, i, results, emptyDigest) && results != []
    ensures AllReported(plan, runs, i + 1, results[1..], emptyDigest)
  {
    forall k | 0 <= k < |results[1..]|
      ensures ResultReports(plan[i + 1 + k], runs(i + 1 + k), results[1..][k], emptyDigest)
    {
      assert ResultReports(plan[i + (k + 1)], runs(i + (k + 1)), results[k + 1], emptyDigest);
    }
  }

  lemma {:induction false} DurationsAdd(plan: seq<Planned>, runs: Runs, i: nat, results: seq<CommandResult>,
      emptyDigest: string)
    requires AllReported(plan, runs, i, results, emptyDigest)
    ensures TotalDuration(results) == DurationOf(plan, runs, i, |results|)
    decreases |results|
  {
    if results != [] {
      var rest := results[1..];
      assert ResultReports(plan[i + 0], runs(i + 0), results[0], emptyDigest);
      TailReported(plan, runs, i, results, emptyDigest);
      DurationsAdd(plan, runs, i + 1, rest, emptyDigest);
      DurationFirst(results[0], rest);
      assert results == [results[0]] + rest;
    }
  }

  /** What both executions of a verification that gave evidence went through. */
  lemma Produced(inputs: Inputs, e: PublicEvidence) returns (baseline: Executed, candidate: Executed)
    requires Answers(inputs, Ok(e))
    ensures Executing(inputs.plan, inputs.baselineRuns, inputs.emptyDigest, 0) == Some(baseline)
    ensures Executing(inputs.plan, inputs.candidateRuns, inputs.emptyDigest, 0) == Some(candidate)
    ensures !GateCloses(baseline.results) && e == EvidenceFrom(inputs, baseline, candidate)
    ensures inputs.candidateFiles.Some?
  {
    baseline := Executing(inputs.plan, inputs.baselineRuns, inputs.emptyDigest, 0).value;
    candidate := Executing(inputs.plan, inputs.candidateRuns, inputs.emptyDigest, 0).value;
  }

  /** The commands published of one execution. */
  ghost predicate CommandsReport(commands: seq<PublicCommand>, plan: seq<Planned>, runs: Runs) {
    && StopsRight(plan, runs, 0, |commands|)
    && forall k | 0 <= k < |commands| :: Publishes(plan[k], runs(k), commands[k])
  }

  lemma ExecutionReports(plan: seq<Planned>, runs: Runs, emptyDigest: string, executed: Executed)
    requires Executing(plan, runs, emptyDigest, 0) == Some(executed)
    ensures CommandsReport(PublicResults(executed.results), plan, runs) && !Breaks(plan, runs)
    ensures GateCloses(executed.results) <==> Fails(plan, runs)
    ensures executed.processes == ProcessesOf(plan, runs, 0, |executed.results|)
    ensures TotalDuration(executed.results) == DurationOf(plan, runs, 0, |executed.results|)
  {
    ExecutingReports(plan, runs, emptyDigest, 0);
    ResultsPublish(plan, runs, emptyDigest, executed.results);
    FailureShows(plan, runs, emptyDigest, executed.results);
    DurationsAdd(plan, runs, 0, executed.results, emptyDigest);
  }

  /** The two worlds of the evidence are what the sandboxes reported; neither broke,
      and the baseline did not fail. */
  lemma WorldsReport(inputs: Inputs, e: PublicEvidence)
    requires Answers(inputs, Ok(e))
    ensures CommandsReport(World(e, "baseline"), inputs.plan, inputs.baselineRuns)
    ensures CommandsReport(World(e, "candidate"), inputs.plan, inputs.candidateRuns)
    ensures e.verification.Keys == {"baseline", "candidate"}
    ensures !Fails(inputs.plan, inputs.baselineRuns)
    ensures !Breaks(inputs.plan, inputs.baselineRuns) && !Breaks(inputs.plan, inputs.candidateRuns)
  {
    var baseline, candidate := Produced(inputs, e);
    ExecutionReports(inputs.plan, inputs.baselineRuns, inputs.emptyDigest, baseline);
    ExecutionReports(inputs.plan, inputs.candidateRuns, inputs.emptyDigest, candidate);
    WorldsOf(inputs, baseline, candidate);
  }

  /** Everything else in the evidence that the two executions decide: the files and the
      processes are the candidate's, the digest is that of what the candidate did, and
      the wall time sums the runs of both. */
  ghost predicate BehaviorReports(inputs: Inputs, e: PublicEvidence) {
    var ran, ranBefore := |World(e, "candidate")|, |World(e, "baseline")|;
    && ran <= |inputs.plan| && ranBefore <= |inputs.plan|
    && inputs.candidateFiles.Some?
    && e.observations.filesystem == inputs.candidateFiles.value
    && e.observations.processes == ProcessesOf(inputs.plan, inputs.candidateRuns, 0, ran)
    && e.artifacts.behaviorEvidenceDigest == inputs.behaviorHash(BehaviorObservation(
         "docker-top-v1; filesystem-snapshot-v1; network-deny", e.observations.processes, e.observations.filesystem,
         [], 0, None, None))
    && e.observations.resources.wallTime == Metric("OBSERVED", Some(
         DurationOf(inputs.plan, inputs.baselineRuns, 0, ranBefore) +
         DurationOf(inputs.plan, inputs.candidateRuns, 0, ran)))
    && e.observations.resources.peakMemory == Metric("UNAVAILABLE", None)
    && e.observations.resources.cpu == Metric("UNAVAILABLE", None)
  }

  lemma BehaviorOf(inputs: Inputs, baseline: Executed, candidate: Executed)
    requires inputs.candidateFiles.Some?
    ensures var e := EvidenceFrom(inputs, baseline, candidate);
      && e.observations.filesystem == inputs.candidateFiles.value
      && e.observations.processes == candidate.processes
      && e.artifacts.behaviorEvidenceDigest == inputs.behaviorHash(BehaviorObservation(
           "docker-top-v1; filesystem-snapshot-v1; network-deny", candidate.processes, inputs.candidateFiles.value,
           [], 0, None, None))
      && e.observations.resources == Resources(
           Metric("OBSERVED", Some(TotalDuration(baseline.results) + TotalDuration(candidate.results))),
           Metric("UNAVAILABLE", None), Metric("UNAVAILABLE", None))
  {
  }

  lemma ReportedBehavior(inputs: Inputs, e: PublicEvidence, baseline: Executed, candidate: Executed)
    requires e == EvidenceFrom(inputs, baseline, candidate) && inputs.candidateFiles.Some?
    requires |World(e, "baseline")| == |baseline.results| <= |inputs.plan|
    requires |World(e, "candidate")| == |candidate.results| <= |inputs.plan|
    requires candidate.processes == ProcessesOf(inputs.plan, inputs.candidateRuns, 0, |candidate.results|)
    requires TotalDuration(candidate.results) ==
        DurationOf(inputs.plan, inputs.candidateRuns, 0, |candidate.results|)
    requires TotalDuration(baseline.results) == DurationOf(inputs.plan, inputs.baselineRuns, 0, |baseline.results|)
    ensures BehaviorReports(inputs, e)
  {
    BehaviorOf(inputs, baseline, candidate);
  }

  lemma BehaviorIsReported(inputs: Inputs, e: PublicEvidence)
    requires Answers(inputs, Ok(e))
    ensures BehaviorReports(inputs, e)
  {
    var baseline, candidate := Produced(inputs, e);
    ExecutionReports(inputs.plan, inputs.baselineRuns, inputs.emptyDigest, baseline);
    ExecutionReports(inputs.plan, inputs.candidateRuns, inputs.emptyDigest, candidate);
    WorldsOf(inputs, baseline, candidate);
    ReportedBehavior(inputs, e, baseline, candidate);
  }

  /** What comes into the evidence as it was given. */
  ghost predicate SettingReports(inputs: Inputs, e: PublicEvidence) {
    && e.subject == Subject("npm", inputs.package,
         PackageRef(inputs.baseline.version, PurlOf(inputs.baseline.ecosystem, inputs.baseline.name,
             inputs.baseline.version)),
         PackageRef(inputs.candidate.version, PurlOf(inputs.candidate.ecosystem, inputs.candidate.name,
             inputs.candidate.version)))
    && e.environment == Environment(inputs.host.os, inputs.host.architecture, "node", "npm", "docker", inputs.image,
         None)
    && e.artifacts == inputs.artifacts.(behaviorEvidenceDigest := e.artifacts.behaviorEvidenceDigest)
    && e.policy == inputs.policy
    && |e.externalIntelligence| == |inputs.intelligence|
    && (forall i | 0 <= i < |inputs.intelligence| ::
          && e.externalIntelligence[i].provider == inputs.intelligence[i].provider
          && e.externalIntelligence[i].status == inputs.intelligence[i].status
          && e.externalIntelligence[i].sourceIdentifier == inputs.intelligence[i].sourceId
          && e.externalIntelligence[i].findings == inputs.intelligence[i].findings)
    && e.observations.networkObservationStatus == "UNAVAILABLE" && e.observations.sandboxNetworkPolicy == "DENY"
    && e.methodology.depguardVersion == inputs.host.depguardVersion
    && e.capabilities.filesystemObservation == Capability("SUPPORTED", Some("snapshot-diff"))
    && e.capabilities.processObservation == Capability("PARTIAL", Some("docker-process-polling"))
    && e.capabilities.networkObservation == Capability("UNAVAILABLE", None)
    && e.capabilities.networkSandboxPolicy == Capability("ENFORCED", Some("docker-network-none"))
    && (MissingEvidence("npm-provenance", inputs.provenance.status) in e.missingEvidence <==>
          inputs.provenance.status != "verified")
    && MissingEvidence("network-observation", "observer-not-implemented") in e.missingEvidence
    && inputs.installed == Some((e.subject.baseline.version, e.subject.candidate.version))
  }

  lemma SettingIsReported(inputs: Inputs, e: PublicEvidence)
    requires Answers(inputs, Ok(e))
    ensures SettingReports(inputs, e)
  {
  }

  /** Under a clear policy, evidence of the command line is classified by the runs of
      the candidate: a regression exactly when a command that was reached timed out or
      did not exit with 0, and otherwise passed. */
  lemma EndToEndOverRuns(inputs: Inputs, scripts: Option<set<string>>, overrides: map<string, string>,
      e: PublicEvidence)
    requires inputs.plan == Plan(scripts, overrides) && Answers(inputs, Ok(e))
    ensures inputs.policy.outcome !in {"POLICY_DENIED", "REVIEW_REQUIRED"} ==>
      ClassifyOutcome(e) ==
      if Fails(inputs.plan, inputs.candidateRuns) then CandidateRegressionObserved else ConfiguredChecksPassed
  {
    EndToEnd(inputs, scripts, overrides, e);
    var baseline, candidate := Produced(inputs, e);
    WorldsOf(inputs, baseline, candidate);
    ExecutionReports(inputs.plan, inputs.candidateRuns, inputs.emptyDigest, candidate);
    ExecutingFollowsPlan(inputs.plan, inputs.candidateRuns, inputs.emptyDigest, 0);
    LastFails(candidate.results, inputs.plan);
  }

  /** In results that follow the plan only the last can have failed. */
  lemma LastFails(results: seq<CommandResult>, plan: seq<Planned>)
    requires FollowsPlan(results, plan, 0) && results != []
    ensures IsPublicFailure(PublicResults(results)[|results| - 1].status) <==> GateCloses(results)
  {
  }
}
