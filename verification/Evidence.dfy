/** The value types of the verifier: the internal observations and results of
    depguard-core, and the public V1 evidence of depguard-evidence. */
module Evidence {
  import opened Wrappers

  type byte = b: int | 0 <= b < 256
  type Bytes = seq<byte>

  // ---- depguard-core ----

  datatype PackageCoordinate = PackageCoordinate(ecosystem: string, name: string, version: string) {
    function Purl(): string {
      PurlOf(ecosystem, name, version)
    }
  }

  /** The one spelling of a package URL that the protocol accepts. */
  function PurlOf(ecosystem: string, package: string, version: string): string {
    "pkg:" + ecosystem + "/" + package + "@" + version
  }

  datatype CommandStatus = Passed | Failed | NotConfigured | TimedOut | InfrastructureFailure

  datatype CommandResult = CommandResult(
    name: string,
    status: CommandStatus,
    exitCode: Option<int>,
    durationMs: nat,
    cpuMs: Option<nat>,
    peakMemoryBytes: Option<nat>,
    stdoutDigest: string,
    stderrDigest: string)

  datatype ProcessObservation = ProcessObservation(
    executable: string,
    arguments: seq<string>,
    parentExecutable: Option<string>,
    exitCode: Option<int>)

  datatype FileObservation = FileObservation(
    path: string,
    kind: string,
    size: nat,
    sha256: Option<string>,
    executable: bool)

  datatype NetworkObservation = NetworkObservation(
    destination: string,
    port: nat,
    protocol: string,
    source: string)

  datatype BehaviorObservation = BehaviorObservation(
    measurementMethod: string,
    processes: seq<ProcessObservation>,
    filesystem: seq<FileObservation>,
    network: seq<NetworkObservation>,
    wallDurationMs: nat,
    cpuMs: Option<nat>,
    peakMemoryBytes: Option<nat>)

  datatype ExternalIntelligence = ExternalIntelligence(
    provider: string,
    retrievedAt: Option<string>,
    sourceId: Option<string>,
    status: string,
    findings: seq<string>)

  datatype ProvenanceEvidence = ProvenanceEvidence(
    status: string,
    sourceRepository: Option<string>,
    sourceRevision: Option<string>,
    buildIdentity: Option<string>,
    certificateIdentity: Option<string>,
    transparencyLog: Option<string>)

  datatype CanonicalEvidence = CanonicalEvidence(
    schemaVersion: string,
    normalizationVersion: string,
    methodologyVersion: string,
    packagePurl: string,
    fromVersion: string,
    toVersion: string,
    baselineArtifactSha256: string,
    candidateArtifactSha256: string,
    baselineLockfileDigest: string,
    candidateLockfileDigest: string,
    baselineGraphDigest: string,
    candidateGraphDigest: string,
    commandResults: map<string, seq<CommandResult>>,
    behaviorDigests: map<string, string>,
    policyOutcome: string,
    externalIntelligence: seq<ExternalIntelligence>,
    provenance: ProvenanceEvidence)

  // ---- depguard-evidence ----

  datatype PackageRef = PackageRef(version: string, purl: string)

  datatype Subject = Subject(ecosystem: string, package: string, baseline: PackageRef, candidate: PackageRef)

  datatype Environment = Environment(
    os: string,
    architecture: string,
    runtime: string,
    packageManager: string,
    sandboxBackend: string,
    containerImageReference: string,
    containerImageDigest: Option<string>)

  datatype Artifacts = Artifacts(
    baselineArtifactDigest: string,
    candidateArtifactDigest: string,
    baselineRegistryIntegrity: Option<string>,
    candidateRegistryIntegrity: Option<string>,
    baselineLockfileDigest: string,
    candidateLockfileDigest: string,
    baselineDependencyGraphDigest: string,
    candidateDependencyGraphDigest: string,
    behaviorEvidenceDigest: string)

  datatype PublicCommandStatus = PublicPassed | PublicFailed | PublicNotConfigured | PublicTimeout | PublicError

  datatype PublicCommand = PublicCommand(name: string, status: PublicCommandStatus, exitCode: Option<int>)

  datatype Metric = Metric(status: string, milliseconds: Option<nat>)

  datatype Resources = Resources(wallTime: Metric, peakMemory: Metric, cpu: Metric)

  datatype Observations = Observations(
    filesystem: seq<FileObservation>,
    processes: seq<ProcessObservation>,
    networkObservationStatus: string,
    sandboxNetworkPolicy: string,
    resources: Resources)

  datatype PublicIntelligence = PublicIntelligence(
    provider: string,
    status: string,
    sourceIdentifier: Option<string>,
    findings: seq<string>)

  datatype Policy = Policy(outcome: string, findings: seq<string>)

  datatype Capability = Capability(status: string, backend: Option<string>)

  datatype Capabilities = Capabilities(
    filesystemObservation: Capability,
    processObservation: Capability,
    networkObservation: Capability,
    networkSandboxPolicy: Capability)

  datatype Methodology = Methodology(
    evidenceSchemaVersion: string,
    verificationMethodologyVersion: string,
    normalizationVersion: string,
    depguardVersion: string,
    observerVersion: string,
    sandboxVersion: string)

  datatype MissingEvidence = MissingEvidence(kind: string, reason: string)

  datatype PublicEvidence = PublicEvidence(
    schema: string,
    subject: Subject,
    environment: Environment,
    artifacts: Artifacts,
    verification: map<string, seq<PublicCommand>>,
    observations: Observations,
    externalIntelligence: seq<PublicIntelligence>,
    policy: Policy,
    capabilities: Capabilities,
    methodology: Methodology,
    missingEvidence: seq<MissingEvidence>)

  /** Both package URLs spell out the ecosystem, package and version beside them. */
  predicate SubjectSpelled(s: Subject) {
    && s.baseline.purl == PurlOf(s.ecosystem, s.package, s.baseline.version)
    && s.candidate.purl == PurlOf(s.ecosystem, s.package, s.candidate.version)
  }

  predicate PurlsMatch(e: PublicEvidence) {
    SubjectSpelled(e.subject)
  }

  // ---- JSON values ----

  datatype Json =
    | Null
    | Bool(b: bool)
    | Number(n: int)
    | String(s: string)
    | Array(items: seq<Json>)
    | Object(fields: seq<Field>)

  datatype Field = Field(name: string, value: Json)
}
