/** How the server takes a request: the checks before anything is stored, the
    submission they produce, and the reply. */
module Ingest {
  import opened Wrappers
  import opened Evidence
  import opened Identity
  import opened Text
  import opened Codecs
  import opened Attestation
  import opened Tables
  import opened Persist
  import opened Log
  import opened Commit
  import opened Store

  const MAX_ATTESTATION_BYTES := 256 * 1024
  const MAX_SIGSTORE_BUNDLE_BYTES := 512 * 1024

  /** What a deployment fixes: the libraries, the identity verifier, the policy on
      identities, and what its database cannot store. */
  datatype Config = Config(
    foreign: Foreign,
    envelopeFrom: Json -> Option<DsseEnvelope>,
    predicateJson: Predicate -> Json,
    signaturesJson: seq<SignatureEntry> -> Json,
    jsonSize: Json -> nat,
    verifier: (Bytes, Json) -> Result<CiIdentity, string>,
    policy: IdentityPolicy,
    refuses: (Tables, Submission) -> bool)

  /** The body of a submission request. */
  datatype NetworkSubmission = NetworkSubmission(attestation: string, proof: Option<Json>)

  datatype Reply =
    | TooManyRequests
    | Rejected(reason: string)
    | Accepted(id: string, duplicate: bool)
    | PersistenceFailed

  // ---- Evidence ids ----

  /** The id and canonical value of an envelope: formatting does not matter. */
  function CanonicalEnvelopeId(f: Foreign, raw: Json): Option<(string, Json)> {
    var canonical := f.canonical(raw);
    match f.parse(canonical)
    case None => None
    case Some(value) => Some((Sha256Text(f, canonical), value))
  }

  /** The id that some bytes would be stored under. */
  function IdOfBytes(f: Foreign, bytes: Bytes): Option<string> {
    match f.parse(bytes)
    case None => None
    case Some(raw) => if CanonicalEnvelopeId(f, raw).None? then None else Some(CanonicalEnvelopeId(f, raw).value.0)
  }

  // ---- Privacy ----

  const SENSITIVE := ["privatekey", "secret", "rawlog", "sourcecode", "repository", "gitremote", "databasecontents"]

  function LowerChar(c: char): char {
    if 'A' <= c <= 'Z' then 'a' + (c - 'A') else c
  }

  function Lower(s: string): string {
    seq(|s|, i requires 0 <= i < |s| => LowerChar(s[i]))
  }

  predicate IsSensitive(name: string) {
    exists i :: 0 <= i < |SENSITIVE| && Contains(Lower(name), SENSITIVE[i])
  }

  /** Some object in the value, at any depth, has a sensitive name in it. */
  predicate HasSensitiveName(value: Json) {
    match value
    case Object(fields) =>
      exists i :: 0 <= i < |fields| && (IsSensitive(fields[i].name) || HasSensitiveName(fields[i].value))
    case Array(items) => exists i :: 0 <= i < |items| && HasSensitiveName(items[i])
    case _ => false
  }

  /** The name that a path of positions ends at: into objects and arrays, and at
      last at a field of an object. */
  function NameAt(value: Json, path: seq<nat>): Option<string>
    decreases |path|
  {
    if path == [] then None
    else
      match value
      case Object(fields) =>
        if path[0] >= |fields| then None
        else if |path| == 1 then Some(fields[path[0]].name)
        else NameAt(fields[path[0]].value, path[1..])
      case Array(items) => if path[0] >= |items| then None else NameAt(items[path[0]], path[1..])
      case _ => None
  }

  /** The walk misses no name, however deep. */
  lemma {:induction false} WalkFindsNames(value: Json, path: seq<nat>)
    requires NameAt(value, path).Some? && IsSensitive(NameAt(value, path).value)
    ensures HasSensitiveName(value)
    decreases |path|
  {
    match value
    case Object(fields) =>
      if |path| > 1 {
        WalkFindsNames(fields[path[0]].value, path[1..]);
      }
    case Array(items) => WalkFindsNames(items[path[0]], path[1..]);
  }

  /** And it objects only to a name that is there. */
  lemma {:induction false} WalkFindsOnlyNames(value: Json) returns (path: seq<nat>)
    requires HasSensitiveName(value)
    ensures NameAt(value, path).Some? && IsSensitive(NameAt(value, path).value)
  {
    match value
    case Object(fields) =>
      var i :| 0 <= i < |fields| && (IsSensitive(fields[i].name) || HasSensitiveName(fields[i].value));
      if IsSensitive(fields[i].name) {
        path := [i];
      } else {
        var rest := WalkFindsOnlyNames(fields[i].value);
        path := [i] + rest;
        assert path[1..] == rest;
      }
    case Array(items) =>
      var i :| 0 <= i < |items| && HasSensitiveName(items[i]);
      var rest := WalkFindsOnlyNames(items[i]);
      path := [i] + rest;
      assert path[1..] == rest;
  }

  // ---- From bytes to a submission ----

  /** An attestation that passed every check but that of its proof. */
  datatype Parsed = Parsed(id: string, canonical: Json, envelope: DsseEnvelope, statementJson: Json,
      statement: Statement)

  /** The identity that a proof establishes for these bytes. */
  function Establish(c: Config, bytes: Bytes, proof: Json): Result<Binding, string> {
    match c.verifier(bytes, proof)
    case Err(reason) => Err(reason)
    case Ok(identity) =>
      match c.policy.Validate(identity)
      case Err(reason) => Err(reason)
      case Ok(_) => Ok(Binding(identity, proof, Sha256Text(c.foreign, c.foreign.canonical(proof))))
  }

  /** The checks of the attestation itself, in order. */
  function Inspect(c: Config, bytes: Bytes): Result<Parsed, string> {
    var f := c.foreign;
    if |bytes| > MAX_ATTESTATION_BYTES then Err("ATTESTATION_TOO_LARGE")
    else if f.parse(bytes).None? then Err("MALFORMED_DSSE")
    else
      var raw := f.parse(bytes).value;
      if CanonicalEnvelopeId(f, raw).None? || c.envelopeFrom(raw).None? then Err("MALFORMED_DSSE")
      else
        var (id, canonical) := CanonicalEnvelopeId(f, raw).value;
        var envelope := c.envelopeFrom(raw).value;
        match VerifyEnvelope(f, envelope)
        case Err(error) => Err(error.Code())
        case Ok(_) =>
          var payload := Base64Decode(envelope.payload);
          if payload.None? then Err("MALFORMED_DSSE")
          else if StatementIn(f, payload.value).None? then Err("INVALID_STATEMENT")
          else
            var statement := StatementIn(f, payload.value).value;
            if HasSensitiveName(f.evidenceJson(statement.attested.evidence)) then Err("PRIVACY_VIOLATION")
            else Ok(Parsed(id, canonical, envelope, f.parse(payload.value).value, statement))
  }

  function ParsedSubmission(c: Config, bytes: Bytes, p: Parsed, proof: Option<Binding>): Submission {
    SubmissionOf(
      p.id,
      Document(p.statement.attested.evidenceDigest, p.canonical, bytes, p.statementJson,
               c.predicateJson(p.statement.attested), c.signaturesJson(p.envelope.signatures)),
      if p.envelope.signatures == [] then "" else p.envelope.signatures[0].keyid,
      p.statement.attested.evidence,
      proof)
  }

  /** Every check between the rate limiter and the database. The proof comes last:
      it can add assurance to valid evidence, never rescue invalid evidence. */
  function Prepare(c: Config, bytes: Bytes, proof: Option<Json>): Result<Submission, string> {
    match Inspect(c, bytes)
    case Err(reason) => Err(reason)
    case Ok(parsed) =>
      if proof.None? then Ok(ParsedSubmission(c, bytes, parsed, None))
      else
        match Establish(c, bytes, proof.value)
        case Err(reason) => Err(reason)
        case Ok(binding) => Ok(ParsedSubmission(c, bytes, parsed, Some(binding)))
  }

  /** 64 lower-case hexadecimal digits that are the encoding of a usable public key. */
  predicate NamesKey(f: Foreign, keyid: string) {
    |keyid| == 64 && IsLowerHex(keyid) && KeyFromKeyId(f, keyid).Some? &&
        keyid == HexEncode(KeyFromKeyId(f, keyid).value)
  }

  /** The verifier and the policy accepted this identity for these bytes and this bundle. */
  predicate Established(c: Config, bytes: Bytes, binding: Binding) {
    && c.verifier(bytes, binding.bundle) == Ok(binding.identity)
    && c.policy.Accepts(binding.identity)
    && binding.bundleDigest == Sha256Text(c.foreign, c.foreign.canonical(binding.bundle))
  }

  /** The submission holds what its own bytes say. */
  predicate MadeFromBytes(c: Config, s: Submission) {
    var inspected := Inspect(c, s.document.original);
    inspected.Ok? && s == ParsedSubmission(c, s.document.original, inspected.value, s.proof)
  }

  /** What every stored submission was checked for. */
  predicate Vouched(c: Config, s: Submission) {
    && Admissible(s)
    && MadeFromBytes(c, s)
    && IdOfBytes(c.foreign, s.document.original) == Some(s.id)
    && |s.document.original| <= MAX_ATTESTATION_BYTES
    && NamesKey(c.foreign, s.keyId)
    && (s.proof.Some? ==> Established(c, s.document.original, s.proof.value))
  }

  /** The envelope that some bytes spell out. */
  function EnvelopeOf(c: Config, bytes: Bytes): Option<DsseEnvelope> {
    if c.foreign.parse(bytes).None? then None else c.envelopeFrom(c.foreign.parse(bytes).value)
  }

  /** The attestation could be verified at all: small enough, and bytes of an envelope. */
  predicate IsEnvelope(c: Config, bytes: Bytes) {
    |bytes| <= MAX_ATTESTATION_BYTES && IdOfBytes(c.foreign, bytes).Some? && EnvelopeOf(c, bytes).Some?
  }

  /** What verification makes of an envelope. */
  ghost predicate InspectsAs(c: Config, envelope: DsseEnvelope, r: Result<Parsed, string>) {
    match VerifyEnvelope(c.foreign, envelope)
    case Err(error) => r == Err(error.Code())
    case Ok(_) =>
      var payload := Base64Decode(envelope.payload);
      && payload.Some? && StatementIn(c.foreign, payload.value).Some?
      && var statement := StatementIn(c.foreign, payload.value).value;
      if HasSensitiveName(c.foreign.evidenceJson(statement.attested.evidence)) then r == Err("PRIVACY_VIOLATION")
      else r.Ok? && r.value.envelope == envelope && r.value.statement == statement
  }

  lemma EnvelopeIsInspected(c: Config, bytes: Bytes)
    requires IsEnvelope(c, bytes)
    ensures InspectsAs(c, EnvelopeOf(c, bytes).value, Inspect(c, bytes))
  {
    var envelope := EnvelopeOf(c, bytes).value;
    if VerifyEnvelope(c.foreign, envelope).Ok? {
      AcceptedStatement(c.foreign, envelope);
    }
  }

  lemma CodesDiffer(error: VerificationError)
    ensures error.Code() != "ATTESTATION_TOO_LARGE"
  {
    assert error.Code()[0] in {'M', 'I', 'U', 'S'};
  }

  /** Which attestations pass: small enough, readable, verified, and without a
      sensitive name; and the reason when one does not. */
  lemma InspectExact(c: Config, bytes: Bytes)
    ensures var r := Inspect(c, bytes);
      && (r == Err("ATTESTATION_TOO_LARGE") <==> |bytes| > MAX_ATTESTATION_BYTES)
      && (|bytes| <= MAX_ATTESTATION_BYTES && !IsEnvelope(c, bytes) ==> r == Err("MALFORMED_DSSE"))
      && (IsEnvelope(c, bytes) ==> InspectsAs(c, EnvelopeOf(c, bytes).value, r))
  {
    assert "ATTESTATION_TOO_LARGE"[0] != "MALFORMED_DSSE"[0];
    if IsEnvelope(c, bytes) {
      EnvelopeIsInspected(c, bytes);
      match VerifyEnvelope(c.foreign, EnvelopeOf(c, bytes).value)
      case Err(error) => CodesDiffer(error);
      case Ok(_) => assert "ATTESTATION_TOO_LARGE"[0] != "PRIVACY_VIOLATION"[0];
    }
  }

  lemma InspectedIsSound(c: Config, bytes: Bytes)
    requires Inspect(c, bytes).Ok?
    ensures var p := Inspect(c, bytes).value;
      && |bytes| <= MAX_ATTESTATION_BYTES
      && IdOfBytes(c.foreign, bytes) == Some(p.id) && p.id != ""
      && PurlsMatch(p.statement.attested.evidence)
      && |p.envelope.signatures| == 1 && NamesKey(c.foreign, p.envelope.signatures[0].keyid)
  {
    var envelope := c.envelopeFrom(c.foreign.parse(bytes).value).value;
    AcceptedKeyId(c.foreign, envelope);
    AcceptedStatement(c.foreign, envelope);
  }

  /** A submission that passes the checks has all that the store relies on. */
  lemma PreparedIsVouched(c: Config, bytes: Bytes, proof: Option<Json>)
    requires Prepare(c, bytes, proof).Ok?
    ensures var s := Prepare(c, bytes, proof).value;
      && Vouched(c, s)
      && s.document.original == bytes
      && (s.proof.Some? <==> proof.Some?)
      && (proof.Some? ==> s.proof.value.bundle == proof.value)
  {
    InspectedIsSound(c, bytes);
  }

  /** Formatting does not matter: bytes that parse to one value pass together, with
      one id and the same contents but for the bytes themselves. */
  lemma FormattingKeepsId(c: Config, a: Bytes, b: Bytes)
    requires Prepare(c, a, None).Ok? && c.foreign.parse(a) == c.foreign.parse(b) && |b| <= MAX_ATTESTATION_BYTES
    ensures var s, t := Prepare(c, a, None).value, Prepare(c, b, None);
      t == Ok(s.(document := s.document.(original := b)))
  {
    assert Inspect(c, a) == Inspect(c, b);
  }

  /** A proof never rescues an attestation: with one, bytes are turned down for the
      same reason as without, or pass as the same submission with the identity added. */
  lemma ProofNeverRescues(c: Config, bytes: Bytes, proof: Json)
    ensures var alone, proved := Prepare(c, bytes, None), Prepare(c, bytes, Some(proof));
      && (alone.Err? ==> proved == alone)
      && (proved.Ok? ==> alone == Ok(proved.value.(proof := None)))
      && (alone.Ok? ==> (proved.Ok? <==>
            c.verifier(bytes, proof).Ok? && c.policy.Accepts(c.verifier(bytes, proof).value)))
  {
  }

  // ---- The endpoints ----

  /** The reply to an attestation, and the submission to store if there is one. */
  function Admit(c: Config, open: bool, bytes: Bytes, proof: Option<Json>): Result<Submission, Reply> {
    if !open then Err(TooManyRequests)
    else
      match Prepare(c, bytes, proof)
      case Err(reason) => Err(Rejected(reason))
      case Ok(s) => Ok(s)
  }

  /** The checks that the submission endpoint makes before it hands over: the
      decoded attestation, or the reason for turning it down. */
  function Unwrap(c: Config, body: Option<NetworkSubmission>): Result<(Bytes, Option<Json>), string> {
    if body.None? then Err("MALFORMED_SUBMISSION")
    else
      match Base64Decode(body.value.attestation)
      case None => Err("MALFORMED_SUBMISSION")
      case Some(bytes) =>
        if |bytes| > MAX_ATTESTATION_BYTES then Err("ATTESTATION_TOO_LARGE")
        else if body.value.proof.Some? && !body.value.proof.value.Object? then Err("MALFORMED_IDENTITY_PROOF")
        else if body.value.proof.Some? && c.jsonSize(body.value.proof.value) > MAX_SIGSTORE_BUNDLE_BYTES
            then Err("IDENTITY_PROOF_TOO_LARGE")
        else Ok((bytes, body.value.proof))
  }

  function AdmitSubmission(c: Config, open: bool, body: Option<NetworkSubmission>): Result<Submission, Reply> {
    match Unwrap(c, body)
    case Err(reason) => Err(Rejected(reason))
    case Ok((bytes, proof)) => Admit(c, open, bytes, proof)
  }

  /** The two endpoints agree on an attestation and its base64 text, without proof,
      exactly when the limiter is open or the attestation is not too large. The
      text has four characters for every three bytes begun, which for the largest
      attestation is 349528. */
  lemma EndpointsAgree(c: Config, open: bool, bytes: Bytes)
    ensures Admit(c, open, bytes, None) == AdmitSubmission(c, open,
        Some(NetworkSubmission(Base64Encode(bytes), None))) <==>
      open || |bytes| <= MAX_ATTESTATION_BYTES
    ensures |Base64Encode(bytes)| == (|bytes| + 2) / 3 * 4
    ensures |bytes| <= MAX_ATTESTATION_BYTES ==> |Base64Encode(bytes)| <= 349528
  {
    Base64RoundTrip(bytes);
    Base64Length(bytes);
  }

  /** With a proof, the wrapper's own checks come first, and hand on the same bytes and proof. */
  lemma WrappedProof(c: Config, bytes: Bytes, proof: Json)
    ensures Unwrap(c, Some(NetworkSubmission(Base64Encode(bytes), Some(proof)))) ==
      if |bytes| > MAX_ATTESTATION_BYTES then Err("ATTESTATION_TOO_LARGE")
      else if !proof.Object? then Err("MALFORMED_IDENTITY_PROOF")
      else if c.jsonSize(proof) > MAX_SIGSTORE_BUNDLE_BYTES then Err("IDENTITY_PROOF_TOO_LARGE")
      else Ok((bytes, Some(proof)))
  {
    Base64RoundTrip(bytes);
  }

  /** A text that the submission endpoint decodes is the one encoding of its bytes,
      so with an open limiter each accepted text stands for one attestation. */
  lemma SubmissionsAgree(text: string, other: string)
    requires Base64Decode(text).Some? && Base64Decode(text) == Base64Decode(other)
    ensures text == other
  {
    Base64DecodeIsEncoded(text);
    Base64DecodeIsEncoded(other);
  }

  // ---- The server ----

  class Server {
    const config: Config
    const database: Database

    constructor (config: Config)
      ensures this.config == config
      ensures Valid() && fresh(database) && database.log == []
    {
      this.config := config;
      database := new Database(config.refuses);
    }

    ghost predicate Valid()
      reads this, database
    {
      && database.Valid()
      && database.refuses == config.refuses
      && forall s | s in database.log :: Vouched(config, s)
    }

    /** What answering a request may do to the store: nothing, unless it is accepted. */
    twostate predicate Answered(admitted: Result<Submission, Reply>, reply: Reply)
      reads this, database
      requires |old(database.nextRow)| == SEQUENCES
    {
      if admitted.Err? then
        reply == admitted.error && database.Contents() == old(database.Contents()) && database.log == old(database.log)
      else
        var s := admitted.value;
        if Conflict(old(database.Contents()), s) || config.refuses(old(database.Contents()), s) then
          reply == PersistenceFailed && database.Contents() == old(database.Contents()) &&
              database.log == old(database.log)
        else
          && reply == Accepted(s.id, s.id in old(database.attestations))
          && database.Contents() == Apply(old(database.Contents()), s, old(database.NextDraws()))
          && database.log == old(database.log) + [s]
    }

    method IngestAttestation(open: bool, bytes: Bytes, proof: Option<Json>) returns (reply: Reply)
      requires Valid()
      modifies database
      ensures Valid()
      ensures Answered(Admit(config, open, bytes, proof), reply)
    {
      if !open {
        return TooManyRequests;
      }
      var prepared := Prepare(config, bytes, proof);
      if prepared.Err? {
        return Rejected(prepared.error);
      }
      PreparedIsVouched(config, bytes, proof);
      reply := PersistPrepared(prepared.value);
    }

    method PersistPrepared(s: Submission) returns (reply: Reply)
      requires Valid() && Vouched(config, s)
      modifies database
      ensures Valid()
      ensures Answered(Ok(s), reply)
    {
      var persisted := database.Persist(s);
      match persisted {
        case Err(_) => reply := PersistenceFailed;
        case Ok((id, duplicate)) => reply := Accepted(id, duplicate);
      }
    }

    method IngestSubmission(open: bool, body: Option<NetworkSubmission>) returns (reply: Reply)
      requires Valid()
      modifies database
      ensures Valid()
      ensures Answered(AdmitSubmission(config, open, body), reply)
    {
      var unwrapped := Unwrap(config, body);
      if unwrapped.Err? {
        return Rejected(unwrapped.error);
      }
      var (bytes, proof) := unwrapped.value;
      reply := IngestAttestation(open, bytes, proof);
    }

    method IngestEvidence(open: bool, bytes: Bytes) returns (reply: Reply)
      requires Valid()
      modifies database
      ensures Valid()
      ensures Answered(Admit(config, open, bytes, None), reply)
    {
      reply := IngestAttestation(open, bytes, None);
    }
  }
}
