/** The tables of the index. A table with a UNIQUE key is a map from that key to
    the row, so the constraint holds by construction; a BIGSERIAL primary key is
    the `id` in the row, and its uniqueness is part of the invariant. */
module Tables {
  import opened Wrappers
  import opened Evidence
  import opened Identity
  import opened Outcome

  /** The UNIQUE keys of the six tables that evidence refers to. Each constructor
      is one table: signers, packages, package_versions, version_transitions,
      environments and methodology_versions. The nullable columns of
      `environments` are always NULL, and its key treats NULLs as equal, so they
      take no part in it. */
  datatype Key =
    | SignerKey(keyId: string)
    | PackageKey(ecosystem: string, name: string)
    | VersionKey(versionPackage: nat, version: string)
    | TransitionKey(transitionPackage: nat, fromId: nat, toId: nat)
    | EnvironmentKey(os: string, architecture: string, runtime: string, packageManager: string, sandboxBackend: string)
    | MethodologyKey(methodology: Methodology)

  /** A row of one of those tables. Only package versions have a package URL. */
  datatype Row = Row(id: nat, purl: string)

  /** The columns of an attestation that are copied from the request. */
  datatype Document = Document(
    evidenceDigest: string,
    canonical: Json,
    original: Bytes,
    statement: Json,
    predicateJson: Json,
    signatures: Json)

  datatype AttestationRow = AttestationRow(id: nat, document: Document, signerId: nat)

  /** The columns of a run that are computed from the evidence. */
  datatype RunFacts = RunFacts(outcome: Verdict, processCapability: string, networkCapability: string)

  datatype RunRow = RunRow(id: nat, transitionId: nat, environmentId: nat, methodologyId: nat, facts: RunFacts)

  /** A verified CI identity together with the bundle that proved it. */
  datatype Binding = Binding(identity: CiIdentity, bundle: Json, bundleDigest: string)

  datatype Finding =
    | FilesystemPath(path: string, kind: string)
    | ProcessPattern(process: ProcessObservation)
    | PolicyFinding(outcome: string, policyFinding: string)
    | SecurityFinding(provider: string, status: string, securityFinding: string)

  /** A row of one of the three findings tables; the constructor says which. */
  datatype FindingRow = FindingRow(runId: nat, finding: Finding)

  /** `submissions` holds submission_count; it, `runs` and `identities` are keyed
      by the attestation's id, which is UNIQUE in all three. */
  datatype Tables = Tables(
    rows: map<Key, Row>,
    attestations: map<string, AttestationRow>,
    submissions: map<nat, nat>,
    runs: map<nat, RunRow>,
    identities: map<nat, Binding>,
    findings: seq<FindingRow>)

  const EMPTY_TABLES := Tables(map[], map[], map[], map[], map[], [])

  /** What the commit of `delta` leaves behind. */
  function Overlay(base: Tables, delta: Tables): Tables {
    Tables(
      base.rows + delta.rows,
      base.attestations + delta.attestations,
      base.submissions + delta.submissions,
      base.runs + delta.runs,
      base.identities + delta.identities,
      base.findings + delta.findings)
  }

  /** What a run's findings are written from. */
  datatype Observed = Observed(
    files: seq<FileObservation>,
    processes: seq<ProcessObservation>,
    policy: Policy,
    sources: seq<PublicIntelligence>)

  /** One verified request: the values that `persist` binds to its statements. */
  datatype Submission = Submission(
    id: string,
    document: Document,
    keyId: string,
    subject: Subject,
    environment: Key,
    methodology: Key,
    facts: RunFacts,
    observed: Observed,
    proof: Option<Binding>)
  {
    function Package(): Key {
      PackageKey(subject.ecosystem, subject.package)
    }

    function From(): string {
      subject.baseline.version
    }

    function To(): string {
      subject.candidate.version
    }

    predicate WellTyped() {
      environment.EnvironmentKey? && methodology.MethodologyKey?
    }
  }

  /** How `persist` reads the evidence of a request. */
  function SubmissionOf(id: string, document: Document, keyId: string, e: PublicEvidence,
      proof: Option<Binding>): Submission {
    Submission(
      id,
      document,
      keyId,
      e.subject,
      EnvironmentKey(e.environment.os, e.environment.architecture, e.environment.runtime,
                     e.environment.packageManager, e.environment.sandboxBackend),
      MethodologyKey(e.methodology),
      RunFacts(ClassifyOutcome(e), e.capabilities.processObservation.status, e.capabilities.networkObservation.status),
      Observed(e.observations.filesystem, e.observations.processes, e.policy, e.externalIntelligence),
      proof)
  }

  // ---- The findings written for one run ----

  function FileRows(runId: nat, files: seq<FileObservation>): seq<FindingRow> {
    seq(|files|, i requires 0 <= i < |files| => FindingRow(runId, FilesystemPath(files[i].path, files[i].kind)))
  }

  function ProcessRows(runId: nat, processes: seq<ProcessObservation>): seq<FindingRow> {
    seq(|processes|, i requires 0 <= i < |processes| => FindingRow(runId, ProcessPattern(processes[i])))
  }

  function PolicyRows(runId: nat, p: Policy): seq<FindingRow> {
    seq(|p.findings|, i requires 0 <= i < |p.findings| => FindingRow(runId, PolicyFinding(p.outcome, p.findings[i])))
  }

  function SourceRows(runId: nat, source: PublicIntelligence): seq<FindingRow> {
    seq(|source.findings|,
        i requires 0 <= i < |source.findings| =>
          FindingRow(runId, SecurityFinding(source.provider, source.status, source.findings[i])))
  }

  function SecurityRows(runId: nat, sources: seq<PublicIntelligence>): seq<FindingRow> {
    if sources == [] then []
    else SecurityRows(runId, sources[..|sources| - 1]) + SourceRows(runId, sources[|sources| - 1])
  }

  function FindingRows(runId: nat, o: Observed): seq<FindingRow> {
    FileRows(runId, o.files) + ProcessRows(runId, o.processes) + PolicyRows(runId, o.policy) + SecurityRows(runId,
        o.sources)
  }
}
