/** The V1 attestation protocol: signing and verifying DSSE envelopes. The JSON
    codec, the schema validator, SHA-256 and Ed25519 are parameters; what is
    assumed of them is said by `Lawful`. */
module Attestation {
  import opened Wrappers
  import opened Evidence
  import opened Codecs

  const PREDICATE_TYPE := "https://depguard.dev/attestation/compatibility/v1"
  const PAYLOAD_TYPE := "application/vnd.in-toto+json"
  const STATEMENT_TYPE := "https://in-toto.io/Statement/v1"
  const LOCAL_DEVELOPMENT_KEY := "LOCAL_DEVELOPMENT_KEY"
  const VERSION := "1"

  datatype VerificationError =
    | MalformedDsse
    | InvalidSignature
    | UnsupportedPayloadType
    | InvalidStatement
    | UnsupportedPredicate
    | SchemaValidationFailed
    | UnsupportedSchema
    | UnsupportedMethodology
    | InvalidEvidenceDigest
    | InvalidSubject
    | InvalidArtifactRelationship
  {
    function Code(): string {
      match this
      case MalformedDsse => "MALFORMED_DSSE"
      case InvalidSignature => "INVALID_SIGNATURE"
      case UnsupportedPayloadType => "UNSUPPORTED_PAYLOAD_TYPE"
      case InvalidStatement => "INVALID_STATEMENT"
      case UnsupportedPredicate => "UNSUPPORTED_PREDICATE"
      case SchemaValidationFailed => "SCHEMA_VALIDATION_FAILED"
      case UnsupportedSchema => "UNSUPPORTED_SCHEMA"
      case UnsupportedMethodology => "UNSUPPORTED_METHODOLOGY"
      case InvalidEvidenceDigest => "INVALID_EVIDENCE_DIGEST"
      case InvalidSubject => "INVALID_SUBJECT"
      case InvalidArtifactRelationship => "INVALID_ARTIFACT_RELATIONSHIP"
    }
  }

  datatype SignatureEntry = SignatureEntry(keyid: string, sig: string)

  datatype DsseEnvelope = DsseEnvelope(payloadType: string, payload: string, signatures: seq<SignatureEntry>)

  datatype StatementSubject = StatementSubject(name: string, digest: map<string, string>)

  datatype Predicate = Predicate(evidence: PublicEvidence, evidenceDigest: string, signerAssurance: string)

  datatype Statement = Statement(statementType: string, subject: seq<StatementSubject>, predicateType: string,
      attested: Predicate)

  datatype VerificationSummary = VerificationSummary(schemaVersion: string, methodologyVersion: string,
      predicateType: string, signerAssurance: string)

  // ---- Foreign code ----

  datatype Foreign = Foreign(
    parse: Bytes -> Option<Json>,
    canonical: Json -> Bytes,
    evidenceJson: PublicEvidence -> Json,
    evidenceFrom: Json -> Option<PublicEvidence>,
    statementJson: Statement -> Json,
    statementFrom: Json -> Option<Statement>,
    schemaValid: Json -> bool,
    sha256: Bytes -> Bytes,
    publicKey: Bytes -> Bytes,
    validPoint: Bytes -> bool,
    signature: (Bytes, Bytes) -> Bytes,
    verifies: (Bytes, Bytes, Bytes) -> bool)

  function Get(json: Json, name: string): Option<Json> {
    if json.Object? then FieldIn(json.fields, name) else None
  }

  function FieldIn(fields: seq<Field>, name: string): Option<Json> {
    if fields == [] then None
    else if fields[0].name == name then Some(fields[0].value)
    else FieldIn(fields[1..], name)
  }

  function Pointer(json: Json, path: seq<string>): Option<Json>
    decreases |path|
  {
    if path == [] then Some(json)
    else
      match Get(json, path[0])
      case None => None
      case Some(value) => Pointer(value, path[1..])
  }

  // ---- The schema ----

  predicate IsDigestText(s: string) {
    |s| == 71 && "sha256:" <= s && IsLowerHex(s[7..])
  }

  predicate IsPackageRef(p: PackageRef) {
    p.version != "" && "pkg:" <= p.purl
  }

  predicate IsCapability(c: Capability) {
    c.status in {"SUPPORTED", "PARTIAL", "UNAVAILABLE", "ENFORCED"}
  }

  predicate IsMetric(m: Metric) {
    m.status in {"OBSERVED", "UNAVAILABLE"}
  }

  /** What the V1 schema asks of evidence beyond the types of its fields. */
  predicate MeetsSchema(e: PublicEvidence) {
    && e.schema == VERSION
    && e.subject.ecosystem != "" && e.subject.package != ""
    && IsPackageRef(e.subject.baseline) && IsPackageRef(e.subject.candidate)
    && e.environment.os != "" && e.environment.architecture != "" && e.environment.runtime != ""
    && e.environment.packageManager != "" && e.environment.sandboxBackend != "" &&
        e.environment.containerImageReference != ""
    && IsDigestText(e.artifacts.baselineArtifactDigest) && IsDigestText(e.artifacts.candidateArtifactDigest)
    && IsDigestText(e.artifacts.baselineLockfileDigest) && IsDigestText(e.artifacts.candidateLockfileDigest)
    && IsDigestText(e.artifacts.baselineDependencyGraphDigest) &&
        IsDigestText(e.artifacts.candidateDependencyGraphDigest)
    && IsDigestText(e.artifacts.behaviorEvidenceDigest)
    && e.observations.networkObservationStatus == "UNAVAILABLE" && e.observations.sandboxNetworkPolicy == "DENY"
    && IsMetric(e.observations.resources.wallTime) && IsMetric(e.observations.resources.peakMemory) &&
        IsMetric(e.observations.resources.cpu)
    && e.policy.outcome in {"NO_POLICY_FINDING", "REVIEW_REQUIRED", "POLICY_DENIED"}
    && IsCapability(e.capabilities.filesystemObservation) && IsCapability(e.capabilities.processObservation)
    && IsCapability(e.capabilities.networkObservation) && IsCapability(e.capabilities.networkSandboxPolicy)
    && e.methodology.evidenceSchemaVersion == VERSION && e.methodology.verificationMethodologyVersion == VERSION
    && e.methodology.normalizationVersion == "1" && e.methodology.depguardVersion != ""
    && e.methodology.observerVersion != "" && e.methodology.sandboxVersion != ""
    && forall i | 0 <= i < |e.missingEvidence| :: e.missingEvidence[i].kind != "" && e.missingEvidence[i].reason != ""
  }

  /** Serialising and reading back gives the same value, a statement carries its
      evidence and evidence its version fields under their names, serialised
      evidence passes the schema validator when it meets the schema, and a signature
      made with a key verifies under that key. */
  ghost predicate Lawful(f: Foreign) {
    && (forall s :: f.parse(f.canonical(f.statementJson(s))) == Some(f.statementJson(s)))
    && (forall s :: f.statementFrom(f.statementJson(s)) == Some(s))
    && (forall e :: f.parse(f.canonical(f.evidenceJson(e))) == Some(f.evidenceJson(e)))
    && (forall e :: f.evidenceFrom(f.evidenceJson(e)) == Some(e))
    && (forall s :: Pointer(f.statementJson(s), ["predicate", "evidence"]) == Some(f.evidenceJson(s.attested.evidence)))
    && (forall e :: Get(f.evidenceJson(e), "schema") == Some(String(e.schema)))
    && (forall e ::
          Pointer(f.evidenceJson(e), ["methodology", "evidenceSchemaVersion"]) ==
          Some(String(e.methodology.evidenceSchemaVersion)))
    && (forall e :: Pointer(f.evidenceJson(e), ["methodology", "verificationMethodologyVersion"]) ==
          Some(String(e.methodology.verificationMethodologyVersion)))
    && (forall e :: f.schemaValid(f.evidenceJson(e)) <==> MeetsSchema(e))
    && (forall secret :: |f.publicKey(secret)| == 32 && f.validPoint(f.publicKey(secret)))
    && (forall secret, message :: |f.signature(secret, message)| == 64 &&
          f.verifies(f.publicKey(secret), message, f.signature(secret, message)))
  }

  function EvidenceObject(e: PublicEvidence, whole: Json): Json {
    Object([
      Field("schema", String(e.schema)),
      Field("methodology", Object([
        Field("evidenceSchemaVersion", String(e.methodology.evidenceSchemaVersion)),
        Field("verificationMethodologyVersion", String(e.methodology.verificationMethodologyVersion))])),
      Field("whole", whole)])
  }

  function ReadWhole<T>(json: Json, from: Json -> Option<T>): Option<T> {
    if Get(json, "whole").None? then None else from(Get(json, "whole").value)
  }

  lemma EvidenceObjectReads(e: PublicEvidence, whole: Json)
    ensures var json := EvidenceObject(e, whole);
      && Get(json, "whole") == Some(whole)
      && Get(json, "schema") == Some(String(e.schema))
      && Pointer(json, ["methodology", "evidenceSchemaVersion"]) == Some(String(e.methodology.evidenceSchemaVersion))
      && Pointer(json, ["methodology", "verificationMethodologyVersion"]) ==
          Some(String(e.methodology.verificationMethodologyVersion))
  {
    var json := EvidenceObject(e, whole);
    var methodology := json.fields[1].value;
    SecondField(json.fields, "methodology");
    SecondField(methodology.fields, "verificationMethodologyVersion");
    assert json.fields[0].name != "whole" && json.fields[1..][0].name != "whole";
    SecondField(json.fields[1..], "whole");
    assert FieldIn(json.fields, "whole") == FieldIn(json.fields[1..], "whole");
    PointerOfTwo(json, "methodology", "evidenceSchemaVersion");
    PointerOfTwo(json, "methodology", "verificationMethodologyVersion");
  }

  lemma SecondField(fields: seq<Field>, name: string)
    requires |fields| >= 2 && fields[0].name != name && fields[1].name == name
    ensures FieldIn(fields, name) == Some(fields[1].value)
  {
    assert fields[1..][0] == fields[1];
  }

  lemma PointerOfTwo(json: Json, first: string, second: string)
    ensures Pointer(json, [first, second]) == if Get(json, first).None? then None else Get(Get(json, first).value,
        second)
  {
    assert [first, second][1..] == [second] && [second][1..] == [];
    if Get(json, first).Some? {
      var inner := Get(json, first).value;
      assert Pointer(inner, [second]) == if Get(inner, second).None? then None else Pointer(Get(inner, second).value,
          []);
    }
  }

  function StatementObject(whole: Json, evidence: Json): Json {
    Object([Field("predicate", Object([Field("evidence", evidence)])), Field("whole", whole)])
  }

  lemma StatementObjectReads(whole: Json, evidence: Json)
    ensures var json := StatementObject(whole, evidence);
      Get(json, "whole") == Some(whole) && Pointer(json, ["predicate", "evidence"]) == Some(evidence)
  {
    SecondField(StatementObject(whole, evidence).fields, "whole");
    PointerOfTwo(StatementObject(whole, evidence), "predicate", "evidence");
  }

  /** The laws can be met: any serialisers that read back what they wrote are enough
      to build libraries that meet them. */
  lemma LawfulIsMet(canonical: Json -> Bytes, parse: Bytes -> Option<Json>, evidence: PublicEvidence -> Json,
      evidenceFrom: Json -> Option<PublicEvidence>,
                    statement: Statement -> Json, statementFrom: Json -> Option<Statement>) returns (f: Foreign)
    requires forall j :: parse(canonical(j)) == Some(j)
    requires forall e :: evidenceFrom(evidence(e)) == Some(e)
    requires forall s :: statementFrom(statement(s)) == Some(s)
    ensures Lawful(f)
  {
    var evidenceJson := (e: PublicEvidence) => EvidenceObject(e, evidence(e));
    var readEvidence := (j: Json) => ReadWhole(j, evidenceFrom);
    f := Foreign(
      parse, canonical,
      evidenceJson, readEvidence,
      s => StatementObject(statement(s), EvidenceObject(s.attested.evidence, evidence(s.attested.evidence))),
          j => ReadWhole(j, statementFrom),
      j => readEvidence(j).Some? && MeetsSchema(readEvidence(j).value),
      _ => [], _ => seq(32, _ => 0), _ => true,
      (_, _) => seq(64, _ => 0), (_, _, _) => true);
    forall e
      ensures f.evidenceFrom(f.evidenceJson(e)) == Some(e)
      ensures Get(f.evidenceJson(e), "schema") == Some(String(e.schema))
      ensures Pointer(f.evidenceJson(e), ["methodology", "evidenceSchemaVersion"]) ==
          Some(String(e.methodology.evidenceSchemaVersion))
      ensures Pointer(f.evidenceJson(e), ["methodology", "verificationMethodologyVersion"]) ==
        Some(String(e.methodology.verificationMethodologyVersion))
    {
      EvidenceObjectReads(e, evidence(e));
    }
    forall s
      ensures f.statementFrom(f.statementJson(s)) == Some(s)
      ensures Pointer(f.statementJson(s), ["predicate", "evidence"]) == Some(f.evidenceJson(s.attested.evidence))
    {
      StatementObjectReads(statement(s), f.evidenceJson(s.attested.evidence));
    }
  }

  function Ascii(s: string): Bytes {
    seq(|s|, i requires 0 <= i < |s| => if s[i] as int < 128 then s[i] as int else 63)
  }

  // ---- Evidence ----

  predicate ValidEvidence(f: Foreign, e: PublicEvidence) {
    && f.schemaValid(f.evidenceJson(e))
    && e.schema == VERSION
    && e.methodology.evidenceSchemaVersion == VERSION
    && e.methodology.verificationMethodologyVersion == VERSION
    && "pkg:" <= e.subject.baseline.purl
    && "pkg:" <= e.subject.candidate.purl
  }

  /** None when the evidence is not valid or its canonical form does not read back. */
  function CanonicalBytes(f: Foreign, e: PublicEvidence): Option<Bytes> {
    if !ValidEvidence(f, e) then None
    else
      var bytes := f.canonical(f.evidenceJson(e));
      match f.parse(bytes)
      case None => None
      case Some(json) => if f.evidenceFrom(json).None? then None else Some(bytes)
  }

  function Sha256Text(f: Foreign, bytes: Bytes): string {
    "sha256:" + HexEncode(f.sha256(bytes))
  }

  function EvidenceDigest(f: Foreign, e: PublicEvidence): Option<string> {
    match CanonicalBytes(f, e)
    case None => None
    case Some(bytes) => Some(Sha256Text(f, bytes))
  }

  /** Strips a prefix as often as it is there. */
  function TrimStart(s: string, prefix: string): string
    requires prefix != ""
    decreases |s|
  {
    if prefix <= s then TrimStart(s[|prefix|..], prefix) else s
  }

  function SubjectDigest(e: PublicEvidence): string {
    TrimStart(e.artifacts.candidateArtifactDigest, "sha256:")
  }

  // ---- Signing ----

  function StatementOf(e: PublicEvidence, digest: string): Statement {
    Statement(
      STATEMENT_TYPE,
      [StatementSubject(e.subject.candidate.purl, map["sha256" := SubjectDigest(e)])],
      PREDICATE_TYPE,
      Predicate(e, digest, LOCAL_DEVELOPMENT_KEY))
  }

  /** The envelope that signing gives; None when the evidence has no digest. */
  function Signed(f: Foreign, e: PublicEvidence, secret: Bytes): Option<DsseEnvelope> {
    match EvidenceDigest(f, e)
    case None => None
    case Some(digest) =>
      var payload := f.canonical(f.statementJson(StatementOf(e, digest)));
      var signature := f.signature(secret, Pae(Ascii(PAYLOAD_TYPE), payload));
      Some(DsseEnvelope(PAYLOAD_TYPE, Base64Encode(payload),
          [SignatureEntry(HexEncode(f.publicKey(secret)), Base64Encode(signature))]))
  }

  method Sign(f: Foreign, e: PublicEvidence, secret: Bytes) returns (r: Option<DsseEnvelope>)
    ensures r == Signed(f, e, secret)
  {
    var digest := EvidenceDigest(f, e);
    if digest.None? {
      return None;
    }
    var candidate := map[];
    candidate := candidate["sha256" := TrimStart(e.artifacts.candidateArtifactDigest, "sha256:")];
    var statement := Statement(
      STATEMENT_TYPE,
      [StatementSubject(e.subject.candidate.purl, candidate)],
      PREDICATE_TYPE,
      Predicate(e, digest.value, LOCAL_DEVELOPMENT_KEY));
    assert candidate == map["sha256" := SubjectDigest(e)];
    var payload := f.canonical(f.statementJson(statement));
    var pae := DssePae(Ascii(PAYLOAD_TYPE), payload);
    var signature := f.signature(secret, pae);
    r := Some(DsseEnvelope(PAYLOAD_TYPE, Base64Encode(payload),
        [SignatureEntry(HexEncode(f.publicKey(secret)), Base64Encode(signature))]));
  }

  // ---- Verifying ----

  function ValidateRawEvidence(f: Foreign, value: Json): Result<(), VerificationError> {
    if Get(value, "schema") != Some(String(VERSION)) ||
       Pointer(value, ["methodology", "evidenceSchemaVersion"]) != Some(String(VERSION))
    then Err(UnsupportedSchema)
    else if Pointer(value, ["methodology", "verificationMethodologyVersion"]) != Some(String(VERSION))
        then Err(UnsupportedMethodology)
    else if !f.schemaValid(value) then Err(SchemaValidationFailed)
    else Ok(())
  }

  function ValidateEvidence(f: Foreign, e: PublicEvidence): Result<(), VerificationError> {
    if e.schema != VERSION || e.methodology.evidenceSchemaVersion != VERSION then Err(UnsupportedSchema)
    else if e.methodology.verificationMethodologyVersion != VERSION then Err(UnsupportedMethodology)
    else if !ValidEvidence(f, e) then Err(SchemaValidationFailed)
    else if !PurlsMatch(e) then Err(InvalidArtifactRelationship)
    else Ok(())
  }

  function ValidateSubject(s: Statement): Result<(), VerificationError> {
    if |s.subject| != 1 then Err(InvalidSubject)
    else
      var subject := s.subject[0];
      if subject.name != s.attested.evidence.subject.candidate.purl || |subject.digest| != 1 ||
         "sha256" !in subject.digest || subject.digest["sha256"] != SubjectDigest(s.attested.evidence)
      then Err(InvalidSubject)
      else Ok(())
  }

  function VerifyStatement(f: Foreign, s: Statement): Result<VerificationSummary, VerificationError> {
    var e := s.attested.evidence;
    if s.statementType != STATEMENT_TYPE then Err(InvalidStatement)
    else if s.predicateType != PREDICATE_TYPE then Err(UnsupportedPredicate)
    else if s.attested.signerAssurance != LOCAL_DEVELOPMENT_KEY then Err(InvalidStatement)
    else
      match ValidateEvidence(f, e)
      case Err(error) => Err(error)
      case Ok(_) =>
        match EvidenceDigest(f, e)
        case None => Err(SchemaValidationFailed)
        case Some(digest) =>
          if digest != s.attested.evidenceDigest then Err(InvalidEvidenceDigest)
          else
            match ValidateSubject(s)
            case Err(error) => Err(error)
            case Ok(_) => Ok(SummaryOf(s))
  }

  function SummaryOf(s: Statement): VerificationSummary {
    var methodology := s.attested.evidence.methodology;
    VerificationSummary(methodology.evidenceSchemaVersion, methodology.verificationMethodologyVersion,
                        s.predicateType, s.attested.signerAssurance)
  }

  function VerifyPayload(f: Foreign, payload: Bytes): Result<VerificationSummary, VerificationError> {
    match f.parse(payload)
    case None => Err(InvalidStatement)
    case Some(raw) =>
      match Pointer(raw, ["predicate", "evidence"])
      case None => Err(InvalidStatement)
      case Some(evidence) =>
        match ValidateRawEvidence(f, evidence)
        case Err(error) => Err(error)
        case Ok(_) =>
          match f.statementFrom(raw)
          case None => Err(InvalidStatement)
          case Some(statement) => VerifyStatement(f, statement)
  }

  function Verify(f: Foreign, envelope: DsseEnvelope, key: Bytes): Result<VerificationSummary, VerificationError> {
    if envelope.payloadType != PAYLOAD_TYPE then Err(UnsupportedPayloadType)
    else
      match Base64Decode(envelope.payload)
      case None => Err(MalformedDsse)
      case Some(payload) =>
        if |envelope.signatures| != 1 then Err(MalformedDsse)
        else
          var entry := envelope.signatures[0];
          match Base64Decode(entry.sig)
          case None => Err(MalformedDsse)
          case Some(signature) =>
            if |signature| != 64 then Err(MalformedDsse)
            else if entry.keyid != HexEncode(key) || !f.verifies(key, Pae(Ascii(PAYLOAD_TYPE), payload), signature)
            then Err(InvalidSignature)
            else VerifyPayload(f, payload)
  }

  function KeyFromKeyId(f: Foreign, keyid: string): Option<Bytes> {
    match HexDecode(keyid)
    case None => None
    case Some(key) => if |key| == 32 && f.validPoint(key) then Some(key) else None
  }

  /** Verifies under the key that the envelope names. */
  function VerifyEnvelope(f: Foreign, envelope: DsseEnvelope): Result<VerificationSummary, VerificationError> {
    if |envelope.signatures| != 1 then Err(MalformedDsse)
    else
      match KeyFromKeyId(f, envelope.signatures[0].keyid)
      case None => Err(MalformedDsse)
      case Some(key) => Verify(f, envelope, key)
  }

  // ---- Round trip ----

  lemma SignedStatementVerifies(f: Foreign, e: PublicEvidence, digest: string)
    requires EvidenceDigest(f, e) == Some(digest)
    ensures var s := StatementOf(e, digest);
      VerifyStatement(f, s) == if PurlsMatch(e) then Ok(SummaryOf(s)) else Err(InvalidArtifactRelationship)
  {
  }

  lemma SignedPayloadVerifies(f: Foreign, e: PublicEvidence, digest: string)
    requires Lawful(f) && EvidenceDigest(f, e) == Some(digest)
    ensures var s := StatementOf(e, digest);
      VerifyPayload(f, f.canonical(f.statementJson(s))) == if PurlsMatch(e) then Ok(SummaryOf(s))
          else Err(InvalidArtifactRelationship)
  {
    SignedStatementVerifies(f, e, digest);
    assert ValidateRawEvidence(f, f.evidenceJson(e)) == Ok(());
  }

  function Enveloped(payload: Bytes, key: Bytes, signature: Bytes): DsseEnvelope {
    DsseEnvelope(PAYLOAD_TYPE, Base64Encode(payload), [SignatureEntry(HexEncode(key), Base64Encode(signature))])
  }

  lemma EnvelopedVerifies(f: Foreign, payload: Bytes, key: Bytes, signature: Bytes)
    requires |signature| == 64 && f.verifies(key, Pae(Ascii(PAYLOAD_TYPE), payload), signature)
    ensures Verify(f, Enveloped(payload, key, signature), key) == VerifyPayload(f, payload)
  {
    Base64RoundTrip(payload);
    Base64RoundTrip(signature);
  }

  lemma KeyIdNamesKey(f: Foreign, key: Bytes)
    requires |key| == 32 && f.validPoint(key)
    ensures KeyFromKeyId(f, HexEncode(key)) == Some(key)
  {
    HexRoundTrip(key);
  }

  lemma SignatureVerifies(f: Foreign, secret: Bytes, message: Bytes)
    requires Lawful(f)
    ensures |f.publicKey(secret)| == 32 && f.validPoint(f.publicKey(secret))
    ensures |f.signature(secret, message)| == 64 &&
        f.verifies(f.publicKey(secret), message, f.signature(secret, message))
  {
  }

  /** What was signed verifies under the matching key exactly when both package URLs
      are spelled canonically; nothing else can go wrong, and then it is this error. */
  lemma SignVerifies(f: Foreign, e: PublicEvidence, secret: Bytes)
    requires Lawful(f) && Signed(f, e, secret).Some?
    ensures var envelope := Signed(f, e, secret).value;
      && Verify(f, envelope, f.publicKey(secret)) ==
           (if PurlsMatch(e) then Ok(VerificationSummary(VERSION, VERSION, PREDICATE_TYPE, LOCAL_DEVELOPMENT_KEY))
            else Err(InvalidArtifactRelationship))
      && VerifyEnvelope(f, envelope) == Verify(f, envelope, f.publicKey(secret))
  {
    var digest := EvidenceDigest(f, e).value;
    var payload := f.canonical(f.statementJson(StatementOf(e, digest)));
    var message := Pae(Ascii(PAYLOAD_TYPE), payload);
    SignatureVerifies(f, secret, message);
    EnvelopedVerifies(f, payload, f.publicKey(secret), f.signature(secret, message));
    KeyIdNamesKey(f, f.publicKey(secret));
    SignedPayloadVerifies(f, e, digest);
  }

  /** A signed envelope carries its evidence. */
  lemma SignedCarries(f: Foreign, e: PublicEvidence, secret: Bytes)
    requires Lawful(f) && Signed(f, e, secret).Some?
    ensures var payload := Base64Decode(Signed(f, e, secret).value.payload);
      payload.Some? && StatementIn(f, payload.value).Some? && StatementIn(f, payload.value).value.attested.evidence == e
  {
    var s := StatementOf(e, EvidenceDigest(f, e).value);
    Base64RoundTrip(f.canonical(f.statementJson(s)));
    assert f.statementFrom(f.statementJson(s)) == Some(s);
  }

  /** Signing succeeds exactly on evidence that meets the schema. */
  lemma SignSucceeds(f: Foreign, e: PublicEvidence, secret: Bytes)
    requires Lawful(f)
    ensures Signed(f, e, secret).Some? <==> MeetsSchema(e)
  {
    assert f.evidenceFrom(f.evidenceJson(e)) == Some(e);
  }

  const ZEROS: string := seq(64, _ => '0')
  const SOME_DIGEST := "sha256:" + ZEROS

  /** Evidence that meets the schema and whose baseline URL does not spell its subject. */
  const MISSPELLED := PublicEvidence(
    VERSION,
    Subject("npm", "a", PackageRef("1", "pkg:x"), PackageRef("2", "pkg:npm/a@2")),
    Environment("linux", "x86_64", "node", "npm", "docker", "node:20-alpine", None),
    Artifacts(SOME_DIGEST, SOME_DIGEST, None, None, SOME_DIGEST, SOME_DIGEST, SOME_DIGEST, SOME_DIGEST, SOME_DIGEST),
    map[],
    Observations([], [], "UNAVAILABLE", "DENY",
                 Resources(Metric("OBSERVED", Some(0)), Metric("UNAVAILABLE", None), Metric("UNAVAILABLE", None))),
    [],
    Policy("NO_POLICY_FINDING", []),
    Capabilities(Capability("SUPPORTED", None), Capability("PARTIAL", None), Capability("UNAVAILABLE", None),
        Capability("ENFORCED", None)),
    Methodology(VERSION, VERSION, "1", "1", "1", "1"),
    [])

  lemma MisspelledMeetsSchema()
    ensures MeetsSchema(MISSPELLED) && !PurlsMatch(MISSPELLED)
  {
    assert SOME_DIGEST[7..] == ZEROS && '0' == HEX[0];
    assert PurlOf("npm", "a", "1")[4] == 'n' && "pkg:x"[4] == 'x';
  }

  /** It is signed, and then it does not verify. */
  lemma SignedButRejected(f: Foreign, secret: Bytes)
    requires Lawful(f)
    ensures var envelope := Signed(f, MISSPELLED, secret);
      && envelope.Some?
      && Verify(f, envelope.value, f.publicKey(secret)) == Err(InvalidArtifactRelationship)
      && VerifyEnvelope(f, envelope.value) == Err(InvalidArtifactRelationship)
  {
    MisspelledMeetsSchema();
    SignSucceeds(f, MISSPELLED, secret);
    SignVerifies(f, MISSPELLED, secret);
  }

  // ---- Keys ----

  /** Every accepted envelope names its key by 64 lower-case hexadecimal digits, and
      no two accepted names stand for one key. */
  lemma AcceptedKeyId(f: Foreign, envelope: DsseEnvelope)
    requires VerifyEnvelope(f, envelope).Ok?
    ensures var keyid := envelope.signatures[0].keyid;
      && |envelope.signatures| == 1
      && |keyid| == 64 && IsLowerHex(keyid)
      && KeyFromKeyId(f, keyid).Some? && keyid == HexEncode(KeyFromKeyId(f, keyid).value)
  {
    HexRoundTrip(KeyFromKeyId(f, envelope.signatures[0].keyid).value);
  }

  /** What an accepted envelope carries. */
  lemma AcceptedStatement(f: Foreign, envelope: DsseEnvelope)
    requires VerifyEnvelope(f, envelope).Ok?
    ensures var payload := Base64Decode(envelope.payload);
      && payload.Some?
      && StatementIn(f, payload.value).Some?
      && PurlsMatch(StatementIn(f, payload.value).value.attested.evidence)
  {
    var payload := Base64Decode(envelope.payload).value;
    assert VerifyPayload(f, payload).Ok?;
    assert VerifyStatement(f, StatementIn(f, payload).value).Ok?;
  }

  // ---- The order of the checks ----

  datatype Check = Check(holds: bool, error: VerificationError)

  function FirstFailure(checks: seq<Check>): Option<VerificationError> {
    if checks == [] then None
    else if !checks[0].holds then Some(checks[0].error)
    else FirstFailure(checks[1..])
  }

  function StatementChecks(f: Foreign, s: Statement): seq<Check> {
    var e := s.attested.evidence;
    [Check(s.statementType == STATEMENT_TYPE, InvalidStatement),
     Check(s.predicateType == PREDICATE_TYPE, UnsupportedPredicate),
     Check(s.attested.signerAssurance == LOCAL_DEVELOPMENT_KEY, InvalidStatement),
     Check(e.schema == VERSION && e.methodology.evidenceSchemaVersion == VERSION, UnsupportedSchema),
     Check(e.methodology.verificationMethodologyVersion == VERSION, UnsupportedMethodology),
     Check(ValidEvidence(f, e), SchemaValidationFailed),
     Check(PurlsMatch(e), InvalidArtifactRelationship),
     Check(EvidenceDigest(f, e).Some?, SchemaValidationFailed),
     Check(EvidenceDigest(f, e) == Some(s.attested.evidenceDigest), InvalidEvidenceDigest),
     Check(s.subject == [StatementSubject(e.subject.candidate.purl, map["sha256" := SubjectDigest(e)])],
         InvalidSubject)]
  }

  function PayloadEvidence(f: Foreign, payload: Bytes): Option<Json> {
    if f.parse(payload).None? then None else Pointer(f.parse(payload).value, ["predicate", "evidence"])
  }

  predicate IsVersion(value: Option<Json>) {
    value == Some(String(VERSION))
  }

  function StatementIn(f: Foreign, payload: Bytes): Option<Statement> {
    if f.parse(payload).None? then None else f.statementFrom(f.parse(payload).value)
  }

  function RawChecks(f: Foreign, payload: Bytes): seq<Check> {
    var evidence := PayloadEvidence(f, payload);
    var value := if evidence.Some? then evidence.value else Null;
    [Check(f.parse(payload).Some?, InvalidStatement),
     Check(evidence.Some?, InvalidStatement),
     Check(IsVersion(Get(value, "schema")) && IsVersion(Pointer(value, ["methodology", "evidenceSchemaVersion"])),
         UnsupportedSchema),
     Check(IsVersion(Pointer(value, ["methodology", "verificationMethodologyVersion"])), UnsupportedMethodology),
     Check(f.schemaValid(value), SchemaValidationFailed),
     Check(StatementIn(f, payload).Some?, InvalidStatement)]
  }

  function EnvelopeChecks(f: Foreign, envelope: DsseEnvelope, key: Bytes): seq<Check> {
    var payload := Base64Decode(envelope.payload);
    var signature := if |envelope.signatures| != 1 then None else Base64Decode(envelope.signatures[0].sig);
    [Check(envelope.payloadType == PAYLOAD_TYPE, UnsupportedPayloadType),
     Check(payload.Some?, MalformedDsse),
     Check(|envelope.signatures| == 1, MalformedDsse),
     Check(signature.Some?, MalformedDsse),
     Check(signature.Some? && |signature.value| == 64, MalformedDsse),
     Check(|envelope.signatures| == 1 && envelope.signatures[0].keyid == HexEncode(key), InvalidSignature),
     Check(payload.Some? && signature.Some? &&
         f.verifies(key, Pae(Ascii(PAYLOAD_TYPE), payload.value), signature.value), InvalidSignature)]
  }

  /** All checks in order, as far as there is something to check. */
  function Checks(f: Foreign, envelope: DsseEnvelope, key: Bytes): seq<Check> {
    var payload := Base64Decode(envelope.payload);
    var statement := if payload.None? then None else StatementIn(f, payload.value);
    EnvelopeChecks(f, envelope, key)
    + (if payload.None? then [] else RawChecks(f, payload.value))
    + (if statement.None? then [] else StatementChecks(f, statement.value))
  }

  lemma {:induction false} FirstFailureConcat(a: seq<Check>, b: seq<Check>)
    ensures FirstFailure(a + b) == if FirstFailure(a).Some? then FirstFailure(a) else FirstFailure(b)
  {
    if a == [] {
      assert a + b == b;
    } else {
      assert (a + b)[1..] == a[1..] + b;
      FirstFailureConcat(a[1..], b);
    }
  }

  lemma FirstFailureFrom(checks: seq<Check>, i: nat)
    requires i < |checks|
    ensures FirstFailure(checks[i..]) == if !checks[i].holds then Some(checks[i].error)
        else FirstFailure(checks[i + 1..])
  {
    assert checks[i..][1..] == checks[i + 1..];
  }

  lemma SpelledOut(c: seq<Check>)
    requires |c| <= 10
    ensures FirstFailure(c) ==
      if |c| > 0 && !c[0].holds then Some(c[0].error)
      else if |c| > 1 && !c[1].holds then Some(c[1].error)
      else if |c| > 2 && !c[2].holds then Some(c[2].error)
      else if |c| > 3 && !c[3].holds then Some(c[3].error)
      else if |c| > 4 && !c[4].holds then Some(c[4].error)
      else if |c| > 5 && !c[5].holds then Some(c[5].error)
      else if |c| > 6 && !c[6].holds then Some(c[6].error)
      else if |c| > 7 && !c[7].holds then Some(c[7].error)
      else if |c| > 8 && !c[8].holds then Some(c[8].error)
      else if |c| > 9 && !c[9].holds then Some(c[9].error)
      else None
  {
    assert c[0..] == c && FirstFailure(c[|c|..]) == None;
    forall i | 0 <= i < |c|
      ensures FirstFailure(c[i..]) == if !c[i].holds then Some(c[i].error) else FirstFailure(c[i + 1..])
    {
      FirstFailureFrom(c, i);
    }
  }

  lemma EnvelopeChecksExact(f: Foreign, envelope: DsseEnvelope, key: Bytes)
    ensures var failure := FirstFailure(EnvelopeChecks(f, envelope, key));
      if failure.Some? then Verify(f, envelope, key) == Err(failure.value)
      else Base64Decode(envelope.payload).Some? &&
           Verify(f, envelope, key) == VerifyPayload(f, Base64Decode(envelope.payload).value)
  {
    SpelledOut(EnvelopeChecks(f, envelope, key));
  }

  lemma RawChecksExact(f: Foreign, payload: Bytes)
    ensures var failure := FirstFailure(RawChecks(f, payload));
      if failure.Some? then VerifyPayload(f, payload) == Err(failure.value)
      else StatementIn(f, payload).Some? && VerifyPayload(f, payload) == VerifyStatement(f,
          StatementIn(f, payload).value)
  {
    SpelledOut(RawChecks(f, payload));
  }

  lemma StatementChecksExact(f: Foreign, s: Statement)
    ensures var failure := FirstFailure(StatementChecks(f, s));
      VerifyStatement(f, s) == if failure.Some? then Err(failure.value) else Ok(SummaryOf(s))
  {
    SpelledOut(StatementChecks(f, s));
    OneEntry(s);
  }

  lemma OneEntry(s: Statement)
    ensures var e := s.attested.evidence;
      ValidateSubject(s).Ok? <==>
      s.subject == [StatementSubject(e.subject.candidate.purl, map["sha256" := SubjectDigest(e)])]
  {
    if ValidateSubject(s).Ok? {
      var digest := s.subject[0].digest;
      assert digest.Keys == {"sha256"} by {
        assert |digest.Keys - {"sha256"}| == 0;
      }
      assert digest == map["sha256" := digest["sha256"]];
    }
  }

  /** Verification reports the first check that fails, and succeeds exactly when all hold. */
  lemma VerifyReportsFirst(f: Foreign, envelope: DsseEnvelope, key: Bytes)
    ensures var failure := FirstFailure(Checks(f, envelope, key));
      if failure.Some? then Verify(f, envelope, key) == Err(failure.value)
      else Verify(f, envelope, key).Ok?
  {
    var payload := Base64Decode(envelope.payload);
    var outer := EnvelopeChecks(f, envelope, key);
    var inner := if payload.None? then [] else RawChecks(f, payload.value);
    var statement := if payload.None? then None else StatementIn(f, payload.value);
    var last := if statement.None? then [] else StatementChecks(f, statement.value);
    FirstFailureConcat(outer + inner, last);
    FirstFailureConcat(outer, inner);
    EnvelopeChecksExact(f, envelope, key);
    if payload.Some? {
      RawChecksExact(f, payload.value);
      if statement.Some? {
        StatementChecksExact(f, statement.value);
      }
    }
  }

  // ---- What is signed and what is accepted, in terms of the bytes ----

  /** The envelope's payload decodes to a statement. */
  predicate Carries(f: Foreign, envelope: DsseEnvelope, s: Statement) {
    && Base64Decode(envelope.payload).Some?
    && f.parse(Base64Decode(envelope.payload).value).Some?
    && f.statementFrom(f.parse(Base64Decode(envelope.payload).value).value) == Some(s)
  }

  /** One subject: the candidate's package URL with the digest of the candidate's artifact. */
  ghost predicate NamesCandidate(s: Statement) {
    var e := s.attested.evidence;
    exists d :: |d| == 64 && e.artifacts.candidateArtifactDigest == "sha256:" + d &&
        s.subject == [StatementSubject(e.subject.candidate.purl, map["sha256" := d])]
  }

  /** The types, the assurance and the digest that a V1 statement states. */
  predicate IsV1(f: Foreign, s: Statement) {
    && s.statementType == "https://in-toto.io/Statement/v1"
    && s.predicateType == "https://depguard.dev/attestation/compatibility/v1"
    && s.attested.signerAssurance == "LOCAL_DEVELOPMENT_KEY"
    && s.attested.evidenceDigest == "sha256:" + HexEncode(f.sha256(f.canonical(f.evidenceJson(s.attested.evidence))))
  }

  /** The message under a signature: it reads back as the in-toto type and the payload. */
  ghost predicate IsMessage(envelope: DsseEnvelope, message: Bytes) {
    && envelope.payloadType == "application/vnd.in-toto+json"
    && ReadPae(message).Some?
    && TextOf(ReadPae(message).value.0) == envelope.payloadType
    && Base64Encode(ReadPae(message).value.1) == envelope.payload
  }

  /** One signature, of 64 bytes, that verifies over the message under the named key. */
  ghost predicate SignedBy(f: Foreign, envelope: DsseEnvelope, key: Bytes, message: Bytes) {
    && |envelope.signatures| == 1
    && |key| == 32 && f.validPoint(key) && envelope.signatures[0].keyid == HexEncode(key)
    && Base64Decode(envelope.signatures[0].sig).Some?
    && |Base64Decode(envelope.signatures[0].sig).value| == 64
    && f.verifies(key, message, Base64Decode(envelope.signatures[0].sig).value)
  }

  lemma DigestTextOf(e: PublicEvidence)
    requires IsDigestText(e.artifacts.candidateArtifactDigest)
    ensures |SubjectDigest(e)| == 64 && e.artifacts.candidateArtifactDigest == "sha256:" + SubjectDigest(e)
  {
    var digest := e.artifacts.candidateArtifactDigest;
    assert digest[7..][0] in HEX;
    assert TrimStart(digest, "sha256:") == TrimStart(digest[7..], "sha256:") == digest[7..];
  }

  /** A digest text is "sha256:" and 32 bytes in hexadecimal. */
  lemma DigestTextMeans(s: string)
    ensures IsDigestText(s) <==> exists b :: |b| == 32 && s == "sha256:" + HexEncode(b)
  {
    if IsDigestText(s) {
      LowerHexEncodes(s[7..]);
      var b :| HexEncode(b) == s[7..];
      assert |b| == 32 && s == "sha256:" + HexEncode(b);
    }
    forall b: Bytes | |b| == 32 && s == "sha256:" + HexEncode(b)
      ensures IsDigestText(s)
    {
      HexRoundTrip(b);
      assert s[7..] == HexEncode(b);
    }
  }

  lemma MessageOf(envelope: DsseEnvelope, payload: Bytes)
    requires envelope.payloadType == PAYLOAD_TYPE && envelope.payload == Base64Encode(payload)
    ensures IsMessage(envelope, Pae(Ascii(PAYLOAD_TYPE), payload))
  {
    PaeRoundTrip(Ascii(PAYLOAD_TYPE), payload);
    TypeIsAscii();
  }

  lemma AsciiText(s: string)
    requires forall i | 0 <= i < |s| :: s[i] as int < 128
    ensures TextOf(Ascii(s)) == s
  {
  }

  lemma TypeIsAscii()
    ensures TextOf(Ascii(PAYLOAD_TYPE)) == PAYLOAD_TYPE
  {
    forall i | 0 <= i < |PAYLOAD_TYPE|
      ensures PAYLOAD_TYPE[i] as int < 128
    {
    }
    AsciiText(PAYLOAD_TYPE);
  }

  lemma OneDigest(s: Statement)
    requires IsDigestText(s.attested.evidence.artifacts.candidateArtifactDigest)
    requires s.subject == [StatementSubject(s.attested.evidence.subject.candidate.purl,
                 map["sha256" := SubjectDigest(s.attested.evidence)])]
    ensures NamesCandidate(s)
  {
    DigestTextOf(s.attested.evidence);
  }

  lemma DigestOf(f: Foreign, e: PublicEvidence)
    requires EvidenceDigest(f, e).Some?
    ensures EvidenceDigest(f, e).value == "sha256:" + HexEncode(f.sha256(f.canonical(f.evidenceJson(e))))
  {
  }

  /** An accepted envelope carries a V1 statement about its evidence, whose one
      subject is the candidate with the candidate's digest. */
  lemma AcceptedSubject(f: Foreign, envelope: DsseEnvelope) returns (s: Statement)
    requires VerifyEnvelope(f, envelope).Ok?
    ensures Carries(f, envelope, s) && IsV1(f, s) && SubjectSpelled(s.attested.evidence.subject)
    ensures Lawful(f) ==> MeetsSchema(s.attested.evidence)
    ensures MeetsSchema(s.attested.evidence) ==> NamesCandidate(s)
  {
    AcceptedStatement(f, envelope);
    var payload := Base64Decode(envelope.payload).value;
    s := StatementIn(f, payload).value;
    AcceptedVerifies(f, envelope);
    StatementChecksExact(f, s);
    SpelledOut(StatementChecks(f, s));
    DigestOf(f, s.attested.evidence);
    OneEntry(s);
    if MeetsSchema(s.attested.evidence) {
      OneDigest(s);
    }
  }

  lemma AcceptedVerifies(f: Foreign, envelope: DsseEnvelope)
    requires VerifyEnvelope(f, envelope).Ok?
    ensures Base64Decode(envelope.payload).Some? && StatementIn(f, Base64Decode(envelope.payload).value).Some?
    ensures VerifyStatement(f, StatementIn(f, Base64Decode(envelope.payload).value).value).Ok?
    ensures VerifyEnvelope(f, envelope) == VerifyStatement(f,
        StatementIn(f, Base64Decode(envelope.payload).value).value)
  {
    AcceptedStatement(f, envelope);
    assert VerifyPayload(f, Base64Decode(envelope.payload).value).Ok?;
  }

  /** What an accepted envelope's key signed: the type and the payload that the
      envelope shows. The summary says the same for every accepted envelope. */
  lemma AcceptedMessage(f: Foreign, envelope: DsseEnvelope) returns (key: Bytes, message: Bytes)
    requires VerifyEnvelope(f, envelope).Ok?
    ensures IsMessage(envelope, message) && SignedBy(f, envelope, key, message)
    ensures VerifyEnvelope(f, envelope).value ==
        VerificationSummary("1", "1", "https://depguard.dev/attestation/compatibility/v1", "LOCAL_DEVELOPMENT_KEY")
  {
    AcceptedKeyId(f, envelope);
    AcceptedVerifies(f, envelope);
    key := KeyFromKeyId(f, envelope.signatures[0].keyid).value;
    var payload := Base64Decode(envelope.payload).value;
    message := Pae(Ascii(PAYLOAD_TYPE), payload);
    Base64DecodeIsEncoded(envelope.payload);
    MessageOf(envelope, payload);
    SummaryIsV1(f, StatementIn(f, payload).value);
  }

  lemma SummaryIsV1(f: Foreign, s: Statement)
    requires VerifyStatement(f, s).Ok?
    ensures VerifyStatement(f, s).value ==
        VerificationSummary("1", "1", "https://depguard.dev/attestation/compatibility/v1", "LOCAL_DEVELOPMENT_KEY")
  {
  }

  /** What signing puts into the envelope, under which key and over which message. */
  lemma SignedSubject(f: Foreign, e: PublicEvidence, secret: Bytes) returns (s: Statement, message: Bytes)
    requires Lawful(f) && Signed(f, e, secret).Some?
    ensures var envelope := Signed(f, e, secret).value;
      && Carries(f, envelope, s) && IsV1(f, s) && NamesCandidate(s) && s.attested.evidence == e
      && IsMessage(envelope, message) && SignedBy(f, envelope, f.publicKey(secret), message)
      && Base64Decode(envelope.signatures[0].sig) == Some(f.signature(secret, message))
  {
    var digest := EvidenceDigest(f, e).value;
    s := StatementOf(e, digest);
    var payload := f.canonical(f.statementJson(s));
    message := Pae(Ascii(PAYLOAD_TYPE), payload);
    DigestOf(f, e);
    Base64RoundTrip(payload);
    Base64RoundTrip(f.signature(secret, message));
    SignatureVerifies(f, secret, message);
    MessageOf(Signed(f, e, secret).value, payload);
    OneDigest(s);
  }
}
