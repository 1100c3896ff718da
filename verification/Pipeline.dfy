/** From the command plan to the public evidence, as the command line runs it. */
module Pipeline {
  import opened Wrappers
  import opened Evidence
  import opened Outcome
  import opened Attestation
  import opened Sandbox
  import opened Observer
  import opened Digest

  // ---- The specification argument ----

  /** The last position of a character. */
  function LastIndex(s: string, c: char): (r: Option<nat>)
    ensures r.Some? ==> r.value < |s|
  {
    if s == "" then None
    else if s[|s| - 1] == c then Some(|s| - 1)
    else LastIndex(s[..|s| - 1], c)
  }

  /** package@exact-version */
  function ParseSpec(spec: string): Option<(string, string)> {
    match LastIndex(spec, '@')
    case None => None
    case Some(at) => if at == 0 || at == |spec| - 1 then None else Some((spec[..at], spec[at + 1..]))
  }

  lemma {:induction false} LastIndexExact(s: string, c: char, at: nat)
    ensures LastIndex(s, c) == Some(at) <==> at < |s| && s[at] == c && forall i | at < i < |s| :: s[i] != c
  {
    if s != "" {
      LastIndexExact(s[..|s| - 1], c, at);
    }
  }

  /** A specification is read as a name and a version exactly when it is the two
      joined by '@', neither empty, with no '@' in the version; scoped names keep theirs. */
  lemma ParseSpecExact(spec: string, name: string, version: string)
    ensures ParseSpec(spec) == Some((name, version)) <==>
      spec == name + "@" + version && name != "" && version != "" && '@' !in version
  {
    LastIndexExact(spec, '@', |name|);
    if LastIndex(spec, '@').Some? {
      LastIndexExact(spec, '@', LastIndex(spec, '@').value);
    }
    if ParseSpec(spec) == Some((name, version)) {
      assert spec == spec[..|name|] + [spec[|name|]] + spec[|name| + 1..];
    }
    if spec == name + "@" + version {
      assert spec[|name|] == '@' && spec[|name| + 1..] == version && spec[..|name|] == name;
      assert forall i | |name| < i < |spec| :: spec[i] == version[i - |name| - 1];
      assert forall i | 0 <= i < |version| :: version[i] == spec[|name| + 1 + i];
    }
  }

  // ---- The plan ----

  datatype Planned = Planned(name: string, command: Option<string>)

  const SCRIPTS := ["build", "test", "typecheck", "lint", "integration", "e2e"]
  const INSTALL := Planned("install", Some("npm ci --offline --ignore-scripts --no-audit --no-fund"))

  /** An override wins over a script of the manifest; a name with neither is not configured. */
  function PlannedFor(name: string, scripts: Option<set<string>>, overrides: map<string, string>): Planned {
    Planned(name,
            if name in overrides then Some(overrides[name])
            else if scripts.Some? && name in scripts.value then Some("npm run " + name)
            else None)
  }

  function Plan(scripts: Option<set<string>>, overrides: map<string, string>): (plan: seq<Planned>)
    ensures |plan| == 7 && plan[0] == INSTALL
    ensures forall i | 0 <= i < |SCRIPTS| ::
      && plan[i + 1].name == SCRIPTS[i]
      && (plan[i + 1].command.None? <==> SCRIPTS[i] !in overrides && (scripts.Some? ==> SCRIPTS[i] !in scripts.value))
      && (SCRIPTS[i] in overrides ==> plan[i + 1].command == Some(overrides[SCRIPTS[i]]))
      && (SCRIPTS[i] !in overrides && scripts.Some? && SCRIPTS[i] in scripts.value ==>
          plan[i + 1].command == Some("npm run " + SCRIPTS[i]))
  {
    [INSTALL] + seq(|SCRIPTS|, i requires 0 <= i < |SCRIPTS| => PlannedFor(SCRIPTS[i], scripts, overrides))
  }

  method Commands(scripts: Option<set<string>>, overrides: map<string, string>) returns (plan: seq<Planned>)
    ensures plan == Plan(scripts, overrides)
  {
    plan := [INSTALL];
    for i := 0 to |SCRIPTS|
      invariant |plan| == i + 1 && plan[0] == INSTALL
      invariant forall j | 0 <= j < i :: plan[j + 1] == PlannedFor(SCRIPTS[j], scripts, overrides)
    {
      var name := SCRIPTS[i];
      if name in overrides {
        plan := plan + [Planned(name, Some(overrides[name]))];
      } else if scripts.Some? && name in scripts.value {
        plan := plan + [Planned(name, Some("npm run " + name))];
      } else {
        plan := plan + [Planned(name, None)];
      }
    }
  }

  // ---- Running it ----

  /** What the sandbox reports of one command. */
  datatype SandboxRun = SandboxRun(
    timedOut: bool,
    exitCode: Option<int>,
    durationMs: nat,
    stdoutDigest: string,
    stderrDigest: string,
    processes: seq<ProcessObservation>)

  /** The run of the plan's command at a position, or None when the sandbox itself fails. */
  type Runs = nat -> Option<SandboxRun>

  datatype Executed = Executed(results: seq<CommandResult>, processes: seq<ProcessObservation>)

  function NotConfiguredResult(name: string, emptyDigest: string): CommandResult {
    CommandResult(name, NotConfigured, None, 0, None, None, emptyDigest, emptyDigest)
  }

  function RunResult(name: string, run: SandboxRun): CommandResult {
    CommandResult(name, StatusOf(run.timedOut, run.exitCode), run.exitCode, run.durationMs, None, None,
        run.stdoutDigest, run.stderrDigest)
  }

  function Prepend(results: seq<CommandResult>, processes: seq<ProcessObservation>,
      rest: Option<Executed>): Option<Executed> {
    if rest.None? then None else Some(Executed(results + rest.value.results, processes + rest.value.processes))
  }

  /** What running the plan from position `i` on gives. */
  function Executing(plan: seq<Planned>, runs: Runs, emptyDigest: string, i: nat): Option<Executed>
    requires i <= |plan|
    decreases |plan| - i
  {
    if i == |plan| then Some(Executed([], []))
    else if plan[i].command.None? then
      Prepend([NotConfiguredResult(plan[i].name, emptyDigest)], [], Executing(plan, runs, emptyDigest, i + 1))
    else
      match runs(i)
      case None => None
      case Some(run) =>
        var result := RunResult(plan[i].name, run);
        if result.status != Passed then Some(Executed([result], run.processes))
        else Prepend([result], run.processes, Executing(plan, runs, emptyDigest, i + 1))
  }

  method ExecutePlan(plan: seq<Planned>, runs: Runs, emptyDigest: string) returns (r: Option<Executed>)
    ensures r == Executing(plan, runs, emptyDigest, 0)
  {
    var results, processes := [], [];
    PrependNothing(Executing(plan, runs, emptyDigest, 0));
    for i := 0 to |plan|
      invariant Executing(plan, runs, emptyDigest, 0) == Prepend(results, processes,
          Executing(plan, runs, emptyDigest, i))
    {
      ghost var rest := Executing(plan, runs, emptyDigest, i + 1);
      var planned := plan[i];
      if planned.command.None? {
        PrependTwice(results, processes, [NotConfiguredResult(planned.name, emptyDigest)], [], rest);
        results := results + [NotConfiguredResult(planned.name, emptyDigest)];
        assert processes + [] == processes;
        continue;
      }
      var run := runs(i);
      if run.None? {
        return None;
      }
      var result := RunResult(planned.name, run.value);
      PrependTwice(results, processes, [result], run.value.processes, rest);
      processes := processes + run.value.processes;
      var failed := result.status != Passed;
      results := results + [result];
      if failed {
        return Some(Executed(results, processes));
      }
    }
    assert results + [] == results && processes + [] == processes;
    r := Some(Executed(results, processes));
  }

  lemma PrependNothing(rest: Option<Executed>)
    ensures Prepend([], [], rest) == rest
  {
    if rest.Some? {
      assert [] + rest.value.results == rest.value.results && [] + rest.value.processes == rest.value.processes;
    }
  }

  lemma PrependTwice(results: seq<CommandResult>, processes: seq<ProcessObservation>, more: seq<CommandResult>,
                     others: seq<ProcessObservation>, rest: Option<Executed>)
    ensures Prepend(results, processes, Prepend(more, others, rest)) == Prepend(results + more, processes + others,
        rest)
  {
    if rest.Some? {
      assert results + (more + rest.value.results) == results + more + rest.value.results;
      assert processes + (others + rest.value.processes) == processes + others + rest.value.processes;
    }
  }

  predicate IsFailure(status: CommandStatus) {
    status == Failed || status == TimedOut
  }

  /** The results are the plan's first commands in order. All but the last passed or
      were not configured; the plan is cut short exactly by a failure, which is last. */
  predicate FollowsPlan(results: seq<CommandResult>, plan: seq<Planned>, i: nat)
    requires i <= |plan|
  {
    && |results| <= |plan| - i
    && (forall k | 0 <= k < |results| ::
          && results[k].name == plan[i + k].name
          && (results[k].status == NotConfigured <==> plan[i + k].command.None?)
          && (results[k].status in {Passed, NotConfigured} || (IsFailure(results[k].status) && k == |results| - 1)))
    && (|results| < |plan| - i ==> results != [] && IsFailure(results[|results| - 1].status))
  }

  /** One more result before those that follow the rest of the plan. */
  lemma FollowsPlanFrom(result: CommandResult, rest: seq<CommandResult>, plan: seq<Planned>, i: nat)
    requires i < |plan| && FollowsPlan(rest, plan, i + 1)
    requires result.name == plan[i].name && result.status in {Passed, NotConfigured}
    requires result.status == NotConfigured <==> plan[i].command.None?
    ensures FollowsPlan([result] + rest, plan, i)
  {
    var results := [result] + rest;
    forall k | 0 <= k < |results|
      ensures k > 0 ==> results[k] == rest[k - 1] && plan[i + k] == plan[i + 1 + (k - 1)]
    {
    }
    assert rest != [] ==> results[|results| - 1] == rest[|rest| - 1];
  }

  lemma {:induction false} ExecutingFollowsPlan(plan: seq<Planned>, runs: Runs, emptyDigest: string, i: nat)
    requires i <= |plan| && Executing(plan, runs, emptyDigest, i).Some?
    ensures FollowsPlan(Executing(plan, runs, emptyDigest, i).value.results, plan, i)
    decreases |plan| - i
  {
    if i < |plan| {
      var results := Executing(plan, runs, emptyDigest, i).value.results;
      if plan[i].command.None? || RunResult(plan[i].name, runs(i).value).status == Passed {
        ExecutingFollowsPlan(plan, runs, emptyDigest, i + 1);
        FollowsPlanFrom(results[0], Executing(plan, runs, emptyDigest, i + 1).value.results, plan, i);
      }
    }
  }

  // ---- From results to public evidence ----

  function PublicStatus(status: CommandStatus): PublicCommandStatus {
    match status
    case Passed => PublicPassed
    case Failed => PublicFailed
    case NotConfigured => PublicNotConfigured
    case TimedOut => PublicTimeout
    case InfrastructureFailure => PublicError
  }

  function PublicResults(results: seq<CommandResult>): seq<PublicCommand> {
    seq(|results|, i requires 0 <= i < |results| => PublicCommand(results[i].name, PublicStatus(results[i].status),
        results[i].exitCode))
  }

  function PublicSources(sources: seq<ExternalIntelligence>): seq<PublicIntelligence> {
    seq(|sources|, i requires 0 <= i < |sources| =>
      PublicIntelligence(sources[i].provider, sources[i].status, sources[i].sourceId, sources[i].findings))
  }

  /** What the build and the host fix. */
  datatype Host = Host(os: string, architecture: string, depguardVersion: string)

  function Project(ecosystem: string, package: string, baseline: PackageCoordinate, candidate: PackageCoordinate,
                   artifacts: Artifacts, commands: map<string, seq<CommandResult>>,
                   base: BehaviorObservation, candidateBehavior: BehaviorObservation,
                   intelligence: seq<ExternalIntelligence>, provenance: ProvenanceEvidence,
                   policy: Policy, image: string, host: Host): PublicEvidence
  {
    PublicEvidence(
      "1",
      Subject(ecosystem, package, PackageRef(baseline.version, baseline.Purl()),
          PackageRef(candidate.version, candidate.Purl())),
      Environment(host.os, host.architecture, "node", "npm", "docker", image, None),
      artifacts,
      map world | world in commands :: PublicResults(commands[world]),
      Observations(
        candidateBehavior.filesystem,
        candidateBehavior.processes,
        "UNAVAILABLE",
        "DENY",
        Resources(Metric("OBSERVED", Some(base.wallDurationMs + candidateBehavior.wallDurationMs)),
                  Metric("UNAVAILABLE", None),
                  Metric("UNAVAILABLE", None))),
      PublicSources(intelligence),
      policy,
      Capabilities(
        Capability("SUPPORTED", Some("snapshot-diff")),
        Capability("PARTIAL", Some("docker-process-polling")),
        Capability("UNAVAILABLE", None),
        Capability("ENFORCED", Some("docker-network-none"))),
      Methodology("1", "1", "1", host.depguardVersion, "docker-process-polling-v1", "docker-v1"),
      [MissingEvidence("network-observation", "observer-not-implemented")] +
      if provenance.status == "verified" then [] else [MissingEvidence("npm-provenance", provenance.status)])
  }

  /** Both package URLs match exactly when the coordinates spell the subject's
      ecosystem and package; the versions always do. */
  lemma ProjectPurls(e: PublicEvidence, baseline: PackageCoordinate, candidate: PackageCoordinate)
    requires e.subject.baseline == PackageRef(baseline.version, baseline.Purl())
    requires e.subject.candidate == PackageRef(candidate.version, candidate.Purl())
    ensures PurlsMatch(e) <==>
      baseline.ecosystem + "/" + baseline.name == e.subject.ecosystem + "/" + e.subject.package &&
      candidate.ecosystem + "/" + candidate.name == e.subject.ecosystem + "/" + e.subject.package
  {
    PurlSpelling(baseline.ecosystem, baseline.name, e.subject.ecosystem, e.subject.package, baseline.version);
    PurlSpelling(candidate.ecosystem, candidate.name, e.subject.ecosystem, e.subject.package, candidate.version);
  }

  lemma PurlSpelling(ecosystem: string, package: string, other: string, name: string, version: string)
    ensures PurlOf(ecosystem, package, version) == PurlOf(other, name, version) <==>
        ecosystem + "/" + package == other + "/" + name
  {
    var a, b := ecosystem + "/" + package, other + "/" + name;
    assert PurlOf(ecosystem, package, version) == "pkg:" + a + ("@" + version);
    assert PurlOf(other, name, version) == "pkg:" + b + ("@" + version);
    if PurlOf(ecosystem, package, version) == PurlOf(other, name, version) {
      assert |a| == |b|;
      assert a == ("pkg:" + a + ("@" + version))[4..4 + |a|];
      assert b == ("pkg:" + b + ("@" + version))[4..4 + |b|];
    }
  }

  // ---- One verification ----

  /** What a verification takes from the outside. `prepared` says that everything
      before the first command went well: the sandbox, the configuration, the
      registry, the twins and the plan; `written` that the output could be written.
      The installed versions and the snapshots are None when they cannot be read. */
  datatype Inputs = Inputs(
    prepared: bool,
    package: string,
    baseline: PackageCoordinate,
    candidate: PackageCoordinate,
    installed: Option<(string, string)>,
    plan: seq<Planned>,
    baselineRuns: Runs,
    candidateRuns: Runs,
    baselineFiles: Option<seq<FileObservation>>,
    candidateFiles: Option<seq<FileObservation>>,
    artifacts: Artifacts,
    intelligence: seq<ExternalIntelligence>,
    provenance: ProvenanceEvidence,
    policy: Policy,
    image: string,
    host: Host,
    emptyDigest: string,
    behaviorHash: BehaviorObservation -> string,
    foreign: Foreign,
    written: bool)

  datatype Abort =
    | PreparationFailed
    | SandboxUnavailable
    | BaselineDoesNotPass
    | InstalledVersionUnreadable
    | WrongInstalledVersion
    | SnapshotFailed
    | InvalidEvidence
    | OutputFailed

  const METHOD := "docker-top-v1; filesystem-snapshot-v1; network-deny"

  predicate GateCloses(results: seq<CommandResult>) {
    exists k :: 0 <= k < |results| && results[k].status in {Failed, TimedOut, InfrastructureFailure}
  }

  function TotalDuration(results: seq<CommandResult>): nat {
    if results == [] then 0 else TotalDuration(results[..|results| - 1]) + results[|results| - 1].durationMs
  }

  function Behavior(executed: Executed, files: Option<seq<FileObservation>>): BehaviorObservation {
    BehaviorObservation(METHOD, executed.processes, if files.Some? then files.value else [], [],
        TotalDuration(executed.results), None, None)
  }

  /** The evidence of two executions that went through. */
  function EvidenceFrom(inputs: Inputs, baseline: Executed, candidate: Executed): PublicEvidence {
    var candidateBehavior := Behavior(candidate, inputs.candidateFiles);
    Project("npm", inputs.package, inputs.baseline, inputs.candidate,
            inputs.artifacts.(behaviorEvidenceDigest := BehaviorDigest(inputs.behaviorHash, candidateBehavior)),
            map["baseline" := baseline.results, "candidate" := candidate.results],
            Behavior(baseline, inputs.baselineFiles), candidateBehavior,
            inputs.intelligence, inputs.provenance, inputs.policy, inputs.image, inputs.host)
  }

  /** What a verification answers, by what the two sandboxes do. */
  ghost predicate Answers(inputs: Inputs, r: Result<PublicEvidence, Abort>) {
    var baseline := Executing(inputs.plan, inputs.baselineRuns, inputs.emptyDigest, 0);
    var candidate := Executing(inputs.plan, inputs.candidateRuns, inputs.emptyDigest, 0);
    if !inputs.prepared then r == Err(PreparationFailed)
    else if baseline.None? then r == Err(SandboxUnavailable)
    else if GateCloses(baseline.value.results) then r == Err(BaselineDoesNotPass)
    else if candidate.None? then r == Err(SandboxUnavailable)
    else if inputs.installed.None? then r == Err(InstalledVersionUnreadable)
    else if inputs.installed.value != (inputs.baseline.version, inputs.candidate.version) then r ==
        Err(WrongInstalledVersion)
    else if inputs.baselineFiles.None? || inputs.candidateFiles.None? then r == Err(SnapshotFailed)
    else
      var e := EvidenceFrom(inputs, baseline.value, candidate.value);
      if EvidenceDigest(inputs.foreign, e).None? then r == Err(InvalidEvidence)
      else if !inputs.written then r == Err(OutputFailed)
      else r == Ok(e)
  }

  method RunVerification(inputs: Inputs) returns (r: Result<PublicEvidence, Abort>)
    ensures Answers(inputs, r)
  {
    if !inputs.prepared {
      return Err(PreparationFailed);
    }
    var baseline := ExecutePlan(inputs.plan, inputs.baselineRuns, inputs.emptyDigest);
    if baseline.None? {
      return Err(SandboxUnavailable);
    }
    if GateCloses(baseline.value.results) {
      return Err(BaselineDoesNotPass);
    }
    var candidate := ExecutePlan(inputs.plan, inputs.candidateRuns, inputs.emptyDigest);
    if candidate.None? {
      return Err(SandboxUnavailable);
    }
    if inputs.installed.None? {
      return Err(InstalledVersionUnreadable);
    }
    if inputs.installed.value != (inputs.baseline.version, inputs.candidate.version) {
      return Err(WrongInstalledVersion);
    }
    if inputs.baselineFiles.None? || inputs.candidateFiles.None? {
      return Err(SnapshotFailed);
    }
    var e := EvidenceFrom(inputs, baseline.value, candidate.value);
    if EvidenceDigest(inputs.foreign, e).None? {
      return Err(InvalidEvidence);
    }
    if !inputs.written {
      return Err(OutputFailed);
    }
    r := Ok(e);
  }

  // ---- How the server will classify it ----

  predicate IsPublicFailure(status: PublicCommandStatus) {
    status == PublicFailed || status == PublicTimeout
  }

  /** The plan's first commands in order, cut short exactly by a failure. */
  predicate PublicFollowsPlan(commands: seq<PublicCommand>, plan: seq<Planned>) {
    && |commands| <= |plan|
    && (forall k | 0 <= k < |commands| ::
          && commands[k].name == plan[k].name
          && (commands[k].status == PublicNotConfigured <==> plan[k].command.None?)
          && (commands[k].status in {PublicPassed, PublicNotConfigured} ||
              (IsPublicFailure(commands[k].status) && k == |commands| - 1)))
    && (|commands| < |plan| ==> commands != [] && IsPublicFailure(commands[|commands| - 1].status))
  }

  lemma PublicKeepsPlan(results: seq<CommandResult>, plan: seq<Planned>)
    requires FollowsPlan(results, plan, 0)
    ensures PublicFollowsPlan(PublicResults(results), plan)
  {
    var commands := PublicResults(results);
    forall k | 0 <= k < |commands|
      ensures commands[k].name == plan[k].name
      ensures commands[k].status == PublicNotConfigured <==> plan[k].command.None?
      ensures commands[k].status in {PublicPassed, PublicNotConfigured} ||
              (IsPublicFailure(commands[k].status) && k == |commands| - 1)
    {
      assert results[k].name == plan[0 + k].name;
      assert commands[k].status == PublicStatus(results[k].status);
    }
  }

  lemma WorldsOf(inputs: Inputs, baseline: Executed, candidate: Executed)
    ensures World(EvidenceFrom(inputs, baseline, candidate), "baseline") == PublicResults(baseline.results)
    ensures World(EvidenceFrom(inputs, baseline, candidate), "candidate") == PublicResults(candidate.results)
  {
  }

  lemma GateLeavesNoFailure(results: seq<CommandResult>)
    requires !GateCloses(results)
    ensures var commands := PublicResults(results);
      forall k | 0 <= k < |commands| :: commands[k].status in {PublicPassed, PublicNotConfigured}
  {
    forall k | 0 <= k < |results|
      ensures PublicStatus(results[k].status) in {PublicPassed, PublicNotConfigured}
    {
      assert results[k].status !in {Failed, TimedOut, InfrastructureFailure};
    }
  }

  /** Both worlds reach the server in the order of the plan; the baseline without a
      failure, because the gate was open. */
  lemma EvidenceFollowsPlan(inputs: Inputs, e: PublicEvidence)
    requires Answers(inputs, Ok(e))
    ensures PublicFollowsPlan(World(e, "candidate"), inputs.plan) &&
        PublicFollowsPlan(World(e, "baseline"), inputs.plan)
    ensures forall k | 0 <= k < |World(e, "baseline")| ::
        World(e, "baseline")[k].status in {PublicPassed, PublicNotConfigured}
    ensures e.policy == inputs.policy
  {
    var baseline := Executing(inputs.plan, inputs.baselineRuns, inputs.emptyDigest, 0).value;
    var candidate := Executing(inputs.plan, inputs.candidateRuns, inputs.emptyDigest, 0).value;
    ExecutingFollowsPlan(inputs.plan, inputs.baselineRuns, inputs.emptyDigest, 0);
    ExecutingFollowsPlan(inputs.plan, inputs.candidateRuns, inputs.emptyDigest, 0);
    PublicKeepsPlan(baseline.results, inputs.plan);
    PublicKeepsPlan(candidate.results, inputs.plan);
    WorldsOf(inputs, baseline, candidate);
    GateLeavesNoFailure(baseline.results);
  }

  /** The classification, read off the two worlds. */
  lemma Classified(e: PublicEvidence, plan: seq<Planned>)
    requires plan != [] && plan[0].command.Some?
    requires PublicFollowsPlan(World(e, "candidate"), plan)
    requires forall k | 0 <= k < |World(e, "baseline")| ::
        World(e, "baseline")[k].status in {PublicPassed, PublicNotConfigured}
    ensures World(e, "candidate") != []
    ensures ClassifyOutcome(e) ==
      if e.policy.outcome == "POLICY_DENIED" then PolicyDenial
      else if e.policy.outcome == "REVIEW_REQUIRED" then ReviewRequiredFinding
      else if IsPublicFailure(World(e, "candidate")[|World(e, "candidate")| - 1].status)
          then CandidateRegressionObserved
      else ConfiguredChecksPassed
  {
    var candidate := World(e, "candidate");
    AnyStatusExact(World(e, "baseline"), {PublicFailed, PublicTimeout, PublicError});
    AnyStatusExact(candidate, {PublicError});
    AnyStatusExact(candidate, {PublicFailed, PublicTimeout});
    AnyStatusExact(candidate, {PublicPassed});
    var last := candidate[|candidate| - 1].status;
    assert IsPublicFailure(last) ==> last in {PublicFailed, PublicTimeout};
    assert candidate[0].status in {PublicPassed} || IsPublicFailure(last);
  }

  /** Evidence that the command line produces is never classified as an invalid
      baseline or as an infrastructure error. Policy findings come first; under a
      clear policy it is a regression exactly when the last candidate result failed
      or timed out, and otherwise the whole plan ran and passed, in order. */
  lemma EndToEnd(inputs: Inputs, scripts: Option<set<string>>, overrides: map<string, string>, e: PublicEvidence)
    requires inputs.plan == Plan(scripts, overrides) && Answers(inputs, Ok(e))
    ensures ClassifyOutcome(e) != BaselineInvalid && ClassifyOutcome(e) != VerificationInfrastructureError
    ensures inputs.policy.outcome == "POLICY_DENIED" ==> ClassifyOutcome(e) == PolicyDenial
    ensures inputs.policy.outcome == "REVIEW_REQUIRED" ==> ClassifyOutcome(e) == ReviewRequiredFinding
    ensures inputs.policy.outcome !in {"POLICY_DENIED", "REVIEW_REQUIRED"} ==>
      var candidate := World(e, "candidate");
      && candidate != []
      && (ClassifyOutcome(e) == CandidateRegressionObserved <==> IsPublicFailure(candidate[|candidate| - 1].status))
      && (!IsPublicFailure(candidate[|candidate| - 1].status) ==>
          && ClassifyOutcome(e) == ConfiguredChecksPassed
          && |candidate| == |inputs.plan|
          && forall k | 0 <= k < |candidate| :: candidate[k].name == inputs.plan[k].name)
  {
    EvidenceFollowsPlan(inputs, e);
    Classified(e, inputs.plan);
  }

  // ---- What timing can change ----

  /** The same but for durations and logs. */
  predicate SameRun(a: Option<SandboxRun>, b: Option<SandboxRun>) {
    && (a.Some? <==> b.Some?)
    && (a.Some? ==>
        a.value.timedOut == b.value.timedOut && a.value.exitCode == b.value.exitCode &&
            a.value.processes == b.value.processes)
  }

  predicate SameExecuted(a: Option<Executed>, b: Option<Executed>) {
    && (a.Some? <==> b.Some?)
    && (a.Some? ==> SameResults(a.value.results, b.value.results) && a.value.processes == b.value.processes)
  }

  lemma PrependSame(a: CommandResult, b: CommandResult, processes: seq<ProcessObservation>, x: Option<Executed>,
      y: Option<Executed>)
    requires SameResult(a, b) && SameExecuted(x, y)
    ensures SameExecuted(Prepend([a], processes, x), Prepend([b], processes, y))
  {
    if x.Some? {
      var p, q := [a] + x.value.results, [b] + y.value.results;
      forall k | 0 <= k < |p|
        ensures SameResult(p[k], q[k])
      {
        if k > 0 {
          assert p[k] == x.value.results[k - 1] && q[k] == y.value.results[k - 1];
        }
      }
    }
  }

  lemma {:induction false} ExecutingSame(plan: seq<Planned>, a: Runs, b: Runs, emptyDigest: string, i: nat)
    requires i <= |plan| && forall k | i <= k < |plan| :: SameRun(a(k), b(k))
    ensures SameExecuted(Executing(plan, a, emptyDigest, i), Executing(plan, b, emptyDigest, i))
    decreases |plan| - i
  {
    if i < |plan| {
      ExecutingSame(plan, a, b, emptyDigest, i + 1);
      var x, y := Executing(plan, a, emptyDigest, i + 1), Executing(plan, b, emptyDigest, i + 1);
      if plan[i].command.None? {
        var result := NotConfiguredResult(plan[i].name, emptyDigest);
        PrependSame(result, result, [], x, y);
      } else if a(i).Some? {
        PrependSame(RunResult(plan[i].name, a(i).value), RunResult(plan[i].name, b(i).value), a(i).value.processes, x,
            y);
      }
    }
  }

  lemma SameIsPublic(a: Executed, b: Executed, files: Option<seq<FileObservation>>, hash: BehaviorObservation -> string)
    requires SameExecuted(Some(a), Some(b))
    ensures PublicResults(a.results) == PublicResults(b.results)
    ensures BehaviorDigest(hash, Behavior(a, files)) == BehaviorDigest(hash, Behavior(b, files))
    ensures GateCloses(a.results) <==> GateCloses(b.results)
  {
    assert forall k | 0 <= k < |a.results| :: SameResult(a.results[k], b.results[k]);
  }

  function WithWallTime(e: PublicEvidence, wallTime: Metric): PublicEvidence {
    e.(observations := e.observations.(resources := e.observations.resources.(wallTime := wallTime)))
  }

  lemma EvidenceSame(inputs: Inputs, others: Inputs, b: Executed, c: Executed, b': Executed, c': Executed)
    requires others == inputs.(baselineRuns := others.baselineRuns, candidateRuns := others.candidateRuns)
    requires PublicResults(b.results) == PublicResults(b'.results) &&
        PublicResults(c.results) == PublicResults(c'.results)
    requires c.processes == c'.processes
    requires BehaviorDigest(inputs.behaviorHash, Behavior(c, inputs.candidateFiles)) ==
             BehaviorDigest(inputs.behaviorHash, Behavior(c', inputs.candidateFiles))
    ensures var e, e' := EvidenceFrom(inputs, b, c), EvidenceFrom(others, b', c');
      && e' == WithWallTime(e, e'.observations.resources.wallTime)
      && e.observations.resources.wallTime == Metric("OBSERVED",
          Some(TotalDuration(b.results) + TotalDuration(c.results)))
  {
    var e, e' := EvidenceFrom(inputs, b, c), EvidenceFrom(others, b', c');
    assert e.verification == e'.verification;
  }

  lemma WallTimeMeetsSchema(f: Foreign, e: PublicEvidence, wallTime: Metric)
    requires Lawful(f) && EvidenceDigest(f, e).Some? && IsMetric(wallTime)
    ensures EvidenceDigest(f, WithWallTime(e, wallTime)).Some?
  {
    SignSucceeds(f, e, []);
    SignSucceeds(f, WithWallTime(e, wallTime), []);
  }

  /** Two verifications whose commands end alike, with the same processes, give the
      same answer, whatever they took and logged: the evidence can differ in the
      summed wall time and in nothing else. */
  lemma TimingShowsOnlyInWallTime(inputs: Inputs, others: Inputs, e: PublicEvidence)
    requires others == inputs.(baselineRuns := others.baselineRuns, candidateRuns := others.candidateRuns)
    requires forall k ::
      SameRun(inputs.baselineRuns(k), others.baselineRuns(k)) &&
      SameRun(inputs.candidateRuns(k), others.candidateRuns(k))
    requires Lawful(inputs.foreign) && Answers(inputs, Ok(e))
    ensures exists wallTime :: Answers(others, Ok(WithWallTime(e, wallTime)))
  {
    ExecutingSame(inputs.plan, inputs.baselineRuns, others.baselineRuns, inputs.emptyDigest, 0);
    ExecutingSame(inputs.plan, inputs.candidateRuns, others.candidateRuns, inputs.emptyDigest, 0);
    var b := Executing(inputs.plan, inputs.baselineRuns, inputs.emptyDigest, 0).value;
    var c := Executing(inputs.plan, inputs.candidateRuns, inputs.emptyDigest, 0).value;
    var b' := Executing(inputs.plan, others.baselineRuns, inputs.emptyDigest, 0).value;
    var c' := Executing(inputs.plan, others.candidateRuns, inputs.emptyDigest, 0).value;
    SameIsPublic(b, b', inputs.baselineFiles, inputs.behaviorHash);
    SameIsPublic(c, c', inputs.candidateFiles, inputs.behaviorHash);
    EvidenceSame(inputs, others, b, c, b', c');
    WallTimeMeetsSchema(inputs.foreign, e, EvidenceFrom(others, b', c').observations.resources.wallTime);
    assert Answers(others, Ok(EvidenceFrom(others, b', c')));
  }

  // ---- When evidence is produced ----

  /** What the schema asks of the outside, beyond what the verifier fixes itself. */
  predicate FitInputs(inputs: Inputs, candidate: Executed) {
    && inputs.package != "" && inputs.baseline.version != "" && inputs.candidate.version != ""
    && inputs.host.os != "" && inputs.host.architecture != "" && inputs.host.depguardVersion != "" && inputs.image != ""
    && IsDigestText(inputs.artifacts.baselineArtifactDigest) && IsDigestText(inputs.artifacts.candidateArtifactDigest)
    && IsDigestText(inputs.artifacts.baselineLockfileDigest) && IsDigestText(inputs.artifacts.candidateLockfileDigest)
    && IsDigestText(inputs.artifacts.baselineDependencyGraphDigest) &&
        IsDigestText(inputs.artifacts.candidateDependencyGraphDigest)
    && IsDigestText(BehaviorDigest(inputs.behaviorHash, Behavior(candidate, inputs.candidateFiles)))
    && inputs.policy.outcome in {"NO_POLICY_FINDING", "REVIEW_REQUIRED", "POLICY_DENIED"}
    && inputs.provenance.status != ""
  }

  lemma PurlHasScheme(c: PackageCoordinate)
    ensures "pkg:" <= c.Purl()
  {
    assert c.Purl()[..4] == "pkg:";
  }

  /** The projected evidence meets the schema exactly when the outside is fit. */
  lemma ProjectMeetsSchema(inputs: Inputs, baseline: Executed, candidate: Executed)
    ensures MeetsSchema(EvidenceFrom(inputs, baseline, candidate)) <==> FitInputs(inputs, candidate)
  {
    PurlHasScheme(inputs.baseline);
    PurlHasScheme(inputs.candidate);
    var e := EvidenceFrom(inputs, baseline, candidate);
    var first := MissingEvidence("network-observation", "observer-not-implemented");
    if inputs.provenance.status == "verified" {
      assert e.missingEvidence == [first];
    } else {
      assert e.missingEvidence == [first, MissingEvidence("npm-provenance", inputs.provenance.status)];
      assert e.missingEvidence[1].reason == inputs.provenance.status;
    }
  }
}
