/** What the stored columns, ids and findings are in terms of the bytes of a request. */
module Requests {
  import opened Wrappers
  import opened Evidence
  import opened Text
  import opened Codecs
  import opened Attestation
  import opened Outcome
  import opened Ordering
  import opened Tables
  import opened Persist
  import opened Log
  import opened Commit
  import opened Queries
  import opened Pagination
  import opened Counting
  import opened Observer
  import opened Ingest

  // ---- What bytes say ----

  /** The JSON value in the payload of an envelope. */
  function PayloadJson(c: Config, envelope: DsseEnvelope): Option<Json> {
    if Base64Decode(envelope.payload).None? then None else c.foreign.parse(Base64Decode(envelope.payload).value)
  }

  /** The bytes spell out this envelope, and its payload this statement. */
  ghost predicate SpellOut(c: Config, bytes: Bytes, envelope: DsseEnvelope, statement: Statement) {
    && c.foreign.parse(bytes).Some? && c.envelopeFrom(c.foreign.parse(bytes).value) == Some(envelope)
    && PayloadJson(c, envelope).Some? && c.foreign.statementFrom(PayloadJson(c, envelope).value) == Some(statement)
  }

  // ---- The columns ----

  /** The names under which the transition is stored. */
  predicate NamesTransition(e: PublicEvidence, ecosystem: string, package: string, from: string, to: string) {
    && e.subject.ecosystem == ecosystem && e.subject.package == package
    && e.subject.baseline.version == from && e.subject.candidate.version == to
  }

  /** From the baseline to the candidate, with the package URLs of both. */
  ghost predicate SubjectColumns(s: Submission, e: PublicEvidence) {
    && s.Package() == PackageKey(e.subject.ecosystem, e.subject.package)
    && s.From() == e.subject.baseline.version && s.To() == e.subject.candidate.version
    && s.subject.baseline.purl == e.subject.baseline.purl && s.subject.candidate.purl == e.subject.candidate.purl
  }

  ghost predicate RunColumns(s: Submission, e: PublicEvidence) {
    && s.environment == EnvironmentKey(e.environment.os, e.environment.architecture, e.environment.runtime,
                                       e.environment.packageManager, e.environment.sandboxBackend)
    && s.methodology == MethodologyKey(e.methodology)
    && s.facts.outcome == ClassifyOutcome(e)
    && s.facts.processCapability == e.capabilities.processObservation.status
    && s.facts.networkCapability == e.capabilities.networkObservation.status
    && s.observed.files == e.observations.filesystem && s.observed.processes == e.observations.processes
    && s.observed.policy == e.policy && s.observed.sources == e.externalIntelligence
  }

  /** The documents, the key and the id. The canonical value is that of the canonical
      form, of which the id is the digest. */
  ghost predicate DocumentColumns(c: Config, s: Submission, bytes: Bytes, envelope: DsseEnvelope,
      statement: Statement) {
    var f := c.foreign;
    && f.parse(bytes).Some?
    && var canonical := f.canonical(f.parse(bytes).value);
    && s.document.original == bytes
    && f.parse(canonical) == Some(s.document.canonical)
    && s.id == "sha256:" + HexEncode(f.sha256(canonical))
    && PayloadJson(c, envelope) == Some(s.document.statement)
    && s.document.predicateJson == c.predicateJson(statement.attested)
    && s.document.signatures == c.signaturesJson(envelope.signatures)
    && s.document.evidenceDigest == statement.attested.evidenceDigest
    && |envelope.signatures| == 1 && s.keyId == envelope.signatures[0].keyid
  }

  lemma InspectedSpells(c: Config, bytes: Bytes)
    requires Inspect(c, bytes).Ok?
    ensures var p := Inspect(c, bytes).value;
      && SpellOut(c, bytes, p.envelope, p.statement) && PayloadJson(c, p.envelope) == Some(p.statementJson)
      && CanonicalEnvelopeId(c.foreign, c.foreign.parse(bytes).value) == Some((p.id, p.canonical))
  {
  }

  lemma ParsedColumns(c: Config, bytes: Bytes, p: Parsed, proof: Option<Binding>)
    requires SpellOut(c, bytes, p.envelope, p.statement) && PayloadJson(c, p.envelope) == Some(p.statementJson)
    requires CanonicalEnvelopeId(c.foreign, c.foreign.parse(bytes).value) == Some((p.id, p.canonical))
    requires |p.envelope.signatures| == 1
    ensures var s, e := ParsedSubmission(c, bytes, p, proof), p.statement.attested.evidence;
      SubjectColumns(s, e) && RunColumns(s, e) && DocumentColumns(c, s, bytes, p.envelope, p.statement)
  {
  }

  /** What a submission holds is what its own bytes say, field by field. */
  lemma ColumnsAreBytes(c: Config, s: Submission) returns (envelope: DsseEnvelope, statement: Statement)
    requires MadeFromBytes(c, s)
    ensures SpellOut(c, s.document.original, envelope, statement)
    ensures SubjectColumns(s, statement.attested.evidence) && RunColumns(s, statement.attested.evidence)
    ensures DocumentColumns(c, s, s.document.original, envelope, statement)
  {
    InspectedSpells(c, s.document.original);
    InspectedIsSound(c, s.document.original);
    var p := Inspect(c, s.document.original).value;
    ParsedColumns(c, s.document.original, p, s.proof);
    envelope, statement := p.envelope, p.statement;
  }

  /** A request that passes becomes a submission of what its bytes say: the columns of
      its subject, its run and its documents. */
  lemma PreparedColumns(c: Config, bytes: Bytes, proof: Option<Json>)
      returns (s: Submission, envelope: DsseEnvelope, statement: Statement)
    requires Prepare(c, bytes, proof).Ok?
    ensures Prepare(c, bytes, proof) == Ok(s) && SpellOut(c, bytes, envelope, statement)
    ensures SubjectColumns(s, statement.attested.evidence) && RunColumns(s, statement.attested.evidence)
    ensures DocumentColumns(c, s, bytes, envelope, statement)
    ensures var f := c.foreign;
      s.document.evidenceDigest ==
        "sha256:" + HexEncode(f.sha256(f.canonical(f.evidenceJson(statement.attested.evidence))))
  {
    s := Prepare(c, bytes, proof).value;
    PreparedIsVouched(c, bytes, proof);
    envelope, statement := ColumnsAreBytes(c, s);
    var accepted := AcceptedSubject(c.foreign, envelope);
    assert accepted == statement;
  }

  // ---- Transitions, from the stored bytes ----

  /** The stored bytes of an id carry evidence of this transition. */
  ghost predicate StoredNames(c: Config, db: Tables, id: string, ecosystem: string, package: string, from: string,
      to: string) {
    RawEvidence(db, id).Some? &&
    exists envelope, statement ::
      SpellOut(c, RawEvidence(db, id).value, envelope, statement) &&
      NamesTransition(statement.attested.evidence, ecosystem, package, from, to)
  }

  lemma SpelledOnce(c: Config, bytes: Bytes, a: DsseEnvelope, s: Statement, b: DsseEnvelope, t: Statement)
    requires SpellOut(c, bytes, a, s) && SpellOut(c, bytes, b, t)
    ensures a == b && s == t
  {
  }

  /** An id is scanned for a transition exactly when its stored bytes name it. */
  lemma ScannedByBytes(c: Config, db: Tables, log: seq<Submission>, id: string, ecosystem: string, package: string,
      from: string, to: string)
    requires Represents(db, log) && forall s | s in log :: Vouched(c, s)
    ensures id in ScanEvidence(log, ecosystem, package, from, to) <==>
      StoredNames(c, db, id, ecosystem, package, from, to)
  {
    SeenIsIds(log, id);
    RawEvidenceScans(db, log, id);
    if Seen(log, id) {
      var s := First(log, id);
      assert Vouched(c, s);
      var envelope, statement := ColumnsAreBytes(c, s);
      assert NamesTransition(statement.attested.evidence, ecosystem, package, from, to) <==>
          IsFirst(log, id, ecosystem, package) && s.From() == from && s.To() == to;
      forall b, t | SpellOut(c, s.document.original, b, t)
        ensures t == statement
      {
        SpelledOnce(c, s.document.original, envelope, statement, b, t);
      }
    }
  }

  /** A transition is found exactly when some stored bytes name it, and its evidence
      is exactly the ids whose stored bytes do. */
  lemma TransitionsOfBytes(c: Config, db: Tables, log: seq<Submission>, ecosystem: string, package: string,
      from: string, to: string)
    requires Represents(db, log) && forall s | s in log :: Vouched(c, s)
    ensures var found := TransitionLookup(db, ecosystem, package, from, to);
      && (found.Some? <==> exists id :: StoredNames(c, db, id, ecosystem, package, from, to))
      && (found.Some? ==> forall id ::
            id in EvidenceOf(db, found.value) <==> StoredNames(c, db, id, ecosystem, package, from, to))
  {
    TransitionLookupScans(db, log, ecosystem, package, from, to);
    var scanned := ScanEvidence(log, ecosystem, package, from, to);
    forall id
      ensures id in scanned <==> StoredNames(c, db, id, ecosystem, package, from, to)
    {
      ScannedByBytes(c, db, log, id, ecosystem, package, from, to);
    }
    assert scanned != {} <==> exists id :: id in scanned;
  }

  // ---- The stored rows, from the stored bytes ----

  /** The row with this key has this id. */
  ghost predicate RowIs(db: Tables, key: Key, id: nat) {
    key in db.rows && db.rows[key].id == id
  }

  /** The run of an attestation refers to the rows that the evidence names. */
  ghost predicate RunIsOf(db: Tables, run: RunRow, e: PublicEvidence) {
    && RowIs(db, EnvironmentKey(e.environment.os, e.environment.architecture, e.environment.runtime,
                                e.environment.packageManager, e.environment.sandboxBackend), run.environmentId)
    && RowIs(db, MethodologyKey(e.methodology), run.methodologyId)
    && run.facts == RunFacts(ClassifyOutcome(e), e.capabilities.processObservation.status,
                             e.capabilities.networkObservation.status)
  }

  /** What is stored for an id, read from its stored bytes: signer, run and documents. */
  lemma StoredRowsOfBytes(c: Config, db: Tables, log: seq<Submission>, id: string)
      returns (envelope: DsseEnvelope, statement: Statement)
    requires Represents(db, log) && (forall s | s in log :: Vouched(c, s)) && id in db.attestations
    ensures var a := db.attestations[id];
      && SpellOut(c, a.document.original, envelope, statement)
      && |envelope.signatures| == 1 && RowIs(db, SignerKey(envelope.signatures[0].keyid), a.signerId)
      && a.id in db.runs && RunIsOf(db, db.runs[a.id], statement.attested.evidence)
      && PayloadJson(c, envelope) == Some(a.document.statement)
      && a.document.evidenceDigest == statement.attested.evidenceDigest
      && FindingsAre(FindingsOf(db.findings, db.runs[a.id].id), db.runs[a.id].id, statement.attested.evidence)
  {
    assert Stored(db, log, id);
    var s := First(log, id);
    assert s in log && Vouched(c, s);
    envelope, statement := ColumnsAreBytes(c, s);
    FindingsSpelled(db.runs[db.attestations[id].id].id, s, statement.attested.evidence);
  }

  // ---- The findings of a run ----

  function SecuritySize(sources: seq<PublicIntelligence>): nat {
    if sources == [] then 0 else SecuritySize(sources[..|sources| - 1]) + |sources[|sources| - 1].findings|
  }

  /** The security findings: source by source, and in each in order. */
  ghost predicate SecurityAre(rows: seq<FindingRow>, runId: nat, sources: seq<PublicIntelligence>) {
    && |rows| == SecuritySize(sources)
    && forall m, k | 0 <= m < |sources| && 0 <= k < |sources[m].findings| :: SecurityAt(rows, runId, sources, m, k)
  }

  /** Finding `k` of source `m` stands behind those of the sources before it. */
  ghost predicate SecurityAt(rows: seq<FindingRow>, runId: nat, sources: seq<PublicIntelligence>, m: nat, k: nat)
    requires m < |sources| && k < |sources[m].findings|
  {
    var at := SecuritySize(sources[..m]) + k;
    at < |rows| && rows[at] ==
      FindingRow(runId, SecurityFinding(sources[m].provider, sources[m].status, sources[m].findings[k]))
  }

  ghost predicate FilesAre(rows: seq<FindingRow>, runId: nat, files: seq<FileObservation>) {
    |rows| == |files| &&
    forall i | 0 <= i < |files| :: rows[i] == FindingRow(runId, FilesystemPath(files[i].path, files[i].kind))
  }

  ghost predicate ProcessesAre(rows: seq<FindingRow>, runId: nat, processes: seq<ProcessObservation>) {
    |rows| == |processes| &&
    forall i | 0 <= i < |processes| :: rows[i] == FindingRow(runId, ProcessPattern(processes[i]))
  }

  ghost predicate PolicyIs(rows: seq<FindingRow>, runId: nat, policy: Policy) {
    |rows| == |policy.findings| &&
    forall i | 0 <= i < |policy.findings| ::
      rows[i] == FindingRow(runId, PolicyFinding(policy.outcome, policy.findings[i]))
  }

  /** The rows are the findings of the evidence: files, processes, policy, and security. */
  ghost predicate FindingsAre(rows: seq<FindingRow>, runId: nat, e: PublicEvidence) {
    exists files, processes, policy, security ::
      && rows == files + processes + policy + security
      && FilesAre(files, runId, e.observations.filesystem) && ProcessesAre(processes, runId, e.observations.processes)
      && PolicyIs(policy, runId, e.policy) && SecurityAre(security, runId, e.externalIntelligence)
  }

  lemma {:induction false} SecuritySpelled(runId: nat, sources: seq<PublicIntelligence>)
    ensures SecurityAre(SecurityRows(runId, sources), runId, sources)
  {
    if sources != [] {
      var last := |sources| - 1;
      var init := sources[..last];
      SecuritySpelled(runId, init);
      var rows, more := SecurityRows(runId, init), SourceRows(runId, sources[last]);
      assert SecurityRows(runId, sources) == rows + more;
      forall m, k | 0 <= m < |sources| && 0 <= k < |sources[m].findings|
        ensures SecurityAt(rows + more, runId, sources, m, k)
      {
        if m < last {
          assert init[m] == sources[m] && init[..m] == sources[..m];
          assert SecurityAt(rows, runId, init, m, k);
        } else {
          assert sources[..m] == init;
          assert (rows + more)[|rows| + k] == more[k];
        }
      }
    }
  }

  lemma FindingsSpelled(runId: nat, s: Submission, e: PublicEvidence)
    requires RunColumns(s, e)
    ensures FindingsAre(FindingRows(runId, s.observed), runId, e)
  {
    SecuritySpelled(runId, e.externalIntelligence);
    assert FilesAre(FileRows(runId, s.observed.files), runId, e.observations.filesystem);
    assert ProcessesAre(ProcessRows(runId, s.observed.processes), runId, e.observations.processes);
    assert PolicyIs(PolicyRows(runId, s.observed.policy), runId, e.policy);
  }

  /** The findings of a run are all rows with its id, as often as they are stored. */
  lemma {:induction false} FindingsOfExact(findings: seq<FindingRow>, runId: nat, row: FindingRow)
    ensures multiset(FindingsOf(findings, runId))[row] == if row.runId == runId then multiset(findings)[row] else 0
  {
    if findings != [] {
      var init := findings[..|findings| - 1];
      FindingsOfExact(init, runId, row);
      assert findings == init + [findings[|findings| - 1]];
    }
  }

  // ---- Ids and digests ----

  /** Serialising is undone by parsing, and the hash tells all byte strings apart. */
  ghost predicate Canonical(f: Foreign) {
    Injective(f.sha256) && forall j :: f.parse(f.canonical(j)) == Some(j)
  }

  lemma HashesDiffer(f: Foreign, a: Json, b: Json)
    requires Canonical(f)
    ensures Sha256Text(f, f.canonical(a)) == Sha256Text(f, f.canonical(b)) <==> a == b
  {
    var x, y := f.sha256(f.canonical(a)), f.sha256(f.canonical(b));
    HexIsInjective(x, y);
    if Sha256Text(f, f.canonical(a)) == Sha256Text(f, f.canonical(b)) {
      assert Sha256Text(f, f.canonical(a))[7..] == HexEncode(x) && Sha256Text(f, f.canonical(b))[7..] == HexEncode(y);
      assert f.canonical(a) == f.canonical(b);
      assert f.parse(f.canonical(a)) == Some(a) && f.parse(f.canonical(b)) == Some(b);
    }
  }

  /** Bytes have an id exactly when they can be parsed, and one id exactly when they
      parse to one value. */
  lemma IdsAreValues(f: Foreign, a: Bytes, b: Bytes)
    requires Canonical(f)
    ensures IdOfBytes(f, a).Some? <==> f.parse(a).Some?
    ensures IdOfBytes(f, a).Some? && IdOfBytes(f, b).Some? ==>
      (IdOfBytes(f, a) == IdOfBytes(f, b) <==> f.parse(a) == f.parse(b))
  {
    if f.parse(a).Some? && f.parse(b).Some? {
      HashesDiffer(f, f.parse(a).value, f.parse(b).value);
    }
  }

  /** Two accepted proofs have one bundle digest exactly when they are one bundle. */
  lemma BundleDigests(c: Config, a: Bytes, proof: Json, b: Bytes, other: Json)
    requires Canonical(c.foreign) && Establish(c, a, proof).Ok? && Establish(c, b, other).Ok?
    ensures var p, q := Establish(c, a, proof).value, Establish(c, b, other).value;
      && p.bundle == proof && q.bundle == other
      && (p.bundleDigest == q.bundleDigest <==> proof == other)
  {
    HashesDiffer(c.foreign, proof, other);
  }

  /** Evidence has one digest exactly when it is the same evidence. */
  lemma EvidenceDigests(f: Foreign, a: PublicEvidence, b: PublicEvidence)
    requires Lawful(f) && Injective(f.sha256) && EvidenceDigest(f, a).Some? && EvidenceDigest(f, b).Some?
    ensures EvidenceDigest(f, a) == EvidenceDigest(f, b) <==> a == b
  {
    var x, y := f.canonical(f.evidenceJson(a)), f.canonical(f.evidenceJson(b));
    HexIsInjective(f.sha256(x), f.sha256(y));
    if EvidenceDigest(f, a) == EvidenceDigest(f, b) {
      assert EvidenceDigest(f, a).value[7..] == HexEncode(f.sha256(x));
      assert EvidenceDigest(f, b).value[7..] == HexEncode(f.sha256(y));
      assert f.parse(x) == f.parse(y);
      assert f.evidenceFrom(f.evidenceJson(a)) == Some(a) && f.evidenceFrom(f.evidenceJson(b)) == Some(b);
    }
  }

  /** Some stored bytes parse to the same value. */
  ghost predicate IsStoredValue(c: Config, db: Tables, bytes: Bytes) {
    exists id :: RawEvidence(db, id).Some? && c.foreign.parse(RawEvidence(db, id).value) == c.foreign.parse(bytes)
  }

  /** A request is a duplicate exactly when bytes of the same value are stored, and
      then those stay stored; otherwise no bundle is in its way, and its own bytes
      are stored under its id. */
  lemma DuplicateIsSameValue(c: Config, db: Tables, log: seq<Submission>, bytes: Bytes, proof: Option<Json>, d: Draws)
    requires Canonical(c.foreign) && Represents(db, log) && d.Valid() && Prepare(c, bytes, proof).Ok?
    requires forall s | s in log :: Vouched(c, s)
    ensures var s := Prepare(c, bytes, proof).value;
      && (s.id in db.attestations <==> IsStoredValue(c, db, bytes))
      && (!IsStoredValue(c, db, bytes) ==>
          !Conflict(db, s) && RawEvidence(Apply(db, s, d), s.id) == Some(bytes))
      && (IsStoredValue(c, db, bytes) && !Conflict(db, s) ==>
          RawEvidence(Apply(db, s, d), s.id) == RawEvidence(db, s.id))
  {
    var s := Prepare(c, bytes, proof).value;
    PreparedIsVouched(c, bytes, proof);
    forall id
      ensures RawEvidence(db, id).Some? ==>
        (id == s.id <==> c.foreign.parse(RawEvidence(db, id).value) == c.foreign.parse(bytes))
    {
      if RawEvidence(db, id).Some? {
        StoredValue(c, db, log, id, bytes);
      }
    }
    assert s.id in db.attestations <==> RawEvidence(db, s.id).Some?;
    StoredByCommit(db, log, s, d);
  }

  lemma StoredValue(c: Config, db: Tables, log: seq<Submission>, id: string, bytes: Bytes)
    requires Canonical(c.foreign) && Represents(db, log) && (forall s | s in log :: Vouched(c, s))
    requires RawEvidence(db, id).Some? && IdOfBytes(c.foreign, bytes).Some?
    ensures Some(id) == IdOfBytes(c.foreign, bytes) <==>
      c.foreign.parse(RawEvidence(db, id).value) == c.foreign.parse(bytes)
  {
    RawEvidenceScans(db, log, id);
    assert Vouched(c, First(log, id));
    IdsAreValues(c.foreign, RawEvidence(db, id).value, bytes);
  }

  lemma StoredByCommit(db: Tables, log: seq<Submission>, s: Submission, d: Draws)
    requires AllStored(db, log) && d.Valid()
    ensures s.id !in db.attestations ==> RawEvidence(Apply(db, s, d), s.id) == Some(s.document.original)
    ensures s.id in db.attestations && !Conflict(db, s) ==>
      RawEvidence(Apply(db, s, d), s.id) == RawEvidence(db, s.id)
  {
    if s.id in db.attestations {
      assert Stored(db, log, s.id);
      if !Conflict(db, s) {
        ApplyDuplicate(db, s, d);
      }
    } else {
      ApplyNew(db, s, d);
    }
  }

  lemma BoundInLog(log: seq<Submission>, id: string)
    requires Bound(log, id).Some?
    ensures exists s :: s in log && s.id == id && s.proof == Bound(log, id)
    decreases |log|
  {
    var init := log[..|log| - 1];
    if Bound(init, id).Some? {
      BoundInLog(init, id);
      var s :| s in init && s.id == id && s.proof == Bound(init, id);
      assert s in log;
    } else {
      assert log[|log| - 1] in log;
    }
  }

  /** A request is refused exactly when bytes of its value are bound to another bundle. */
  lemma RefusedIsOtherBundle(c: Config, db: Tables, log: seq<Submission>, bytes: Bytes, proof: Option<Json>)
    requires Canonical(c.foreign) && Represents(db, log) && Prepare(c, bytes, proof).Ok?
    requires forall s | s in log :: Vouched(c, s)
    ensures var s := Prepare(c, bytes, proof).value;
      Conflict(db, s) <==>
        proof.Some? && s.id in db.attestations && db.attestations[s.id].id in db.identities &&
        db.identities[db.attestations[s.id].id].bundle != proof.value
  {
    var s := Prepare(c, bytes, proof).value;
    PreparedIsVouched(c, bytes, proof);
    if proof.Some? && s.id in db.attestations && db.attestations[s.id].id in db.identities {
      assert Stored(db, log, s.id);
      BoundInLog(log, s.id);
      var t :| t in log && t.id == s.id && t.proof == Bound(log, s.id);
      assert Vouched(c, t);
      HashesDiffer(c.foreign, t.proof.value.bundle, proof.value);
    }
  }

  // ---- Replies ----

  /** The reason that a proof fails for, the verifier's before the policy's. */
  ghost predicate ProofTurnedDown(c: Config, bytes: Bytes, proof: Json, reason: string) {
    match c.verifier(bytes, proof)
    case Err(error) => reason == error
    case Ok(identity) =>
      !c.policy.Accepts(identity) && reason ==
        if identity.issuer != "https://token.actions.githubusercontent.com" then "UNTRUSTED_OIDC_ISSUER"
        else "SIGSTORE_IDENTITY_POLICY_REJECTED"
  }

  /** Why a request is turned down: for its attestation alone, or, when that passes,
      for its proof. */
  lemma PrepareRejects(c: Config, bytes: Bytes, proof: Option<Json>, reason: string)
    ensures Prepare(c, bytes, proof) == Err(reason) <==>
      Inspect(c, bytes) == Err(reason) ||
      (Inspect(c, bytes).Ok? && proof.Some? && ProofTurnedDown(c, bytes, proof.value, reason))
  {
  }

  /** A closed limiter turns every request away; under an open one a rejection
      carries the reason, and whatever passes is handed on as it was prepared. */
  lemma AdmitExact(c: Config, open: bool, bytes: Bytes, proof: Option<Json>)
    ensures Admit(c, false, bytes, proof) == Err(TooManyRequests)
    ensures open ==> (forall reason :: Admit(c, open, bytes, proof) == Err(Rejected(reason)) <==>
        Prepare(c, bytes, proof) == Err(reason))
    ensures open ==> (forall s :: Admit(c, open, bytes, proof) == Ok(s) <==> Prepare(c, bytes, proof) == Ok(s))
  {
  }

  /** The submission endpoint turns down a body that is not one and a text that does
      not decode before it looks at the limiter, and says so. */
  lemma UnwrapRejects(c: Config, open: bool, text: string, proof: Option<Json>)
    ensures AdmitSubmission(c, open, None) == Err(Rejected("MALFORMED_SUBMISSION"))
    ensures Base64Decode(text).None? ==>
      AdmitSubmission(c, open, Some(NetworkSubmission(text, proof))) == Err(Rejected("MALFORMED_SUBMISSION"))
    ensures Unwrap(c, Some(NetworkSubmission(text, proof))).Err? ==>
      AdmitSubmission(c, open, Some(NetworkSubmission(text, proof))) ==
        Err(Rejected(Unwrap(c, Some(NetworkSubmission(text, proof))).error))
    ensures Unwrap(c, Some(NetworkSubmission(text, proof))).Ok? ==>
      Unwrap(c, Some(NetworkSubmission(text, proof))).value == (Base64Decode(text).value, proof)
  {
  }

  /** The sizes that are turned down, in bytes: attestations above 256 KiB, bundles
      above 512 KiB. */
  lemma SizesExact(c: Config, bytes: Bytes, proof: Json)
    ensures Inspect(c, bytes) == Err("ATTESTATION_TOO_LARGE") <==> |bytes| > 262144
    ensures Unwrap(c, Some(NetworkSubmission(Base64Encode(bytes), Some(proof)))).Ok? <==>
      |bytes| <= 262144 && proof.Object? && c.jsonSize(proof) <= 524288
  {
    InspectExact(c, bytes);
    WrappedProof(c, bytes, proof);
  }

  // ---- Sensitive names ----

  /** The names that evidence must not contain. */
  const FORBIDDEN :=
    {"privatekey", "secret", "rawlog", "sourcecode", "repository", "gitremote", "databasecontents"}

  /** The same letter but for ASCII case. */
  predicate SameLetter(a: char, b: char) {
    a == b || ('A' <= a <= 'Z' && b as int == a as int + 32) || ('A' <= b <= 'Z' && a as int == b as int + 32)
  }

  /** The text occurs at a position, whatever the ASCII case. */
  predicate OccursAt(name: string, text: string, at: int) {
    0 <= at && at + |text| <= |name| && forall i | 0 <= i < |text| :: SameLetter(name[at + i], text[i])
  }

  predicate IsLowerCase(text: string) {
    forall i | 0 <= i < |text| :: !('A' <= text[i] <= 'Z')
  }

  lemma OccursExact(name: string, text: string)
    requires IsLowerCase(text)
    ensures Contains(Lower(name), text) <==> exists at :: OccursAt(name, text, at)
  {
    forall at: int
      ensures 0 <= at <= |name| && text <= Lower(name)[at..] <==> OccursAt(name, text, at)
    {
      assert forall i | 0 <= i < |text| && 0 <= at && at + |text| <= |name| ::
        Lower(name)[at..][i] == LowerChar(name[at + i]);
    }
  }

  /** A name is sensitive exactly when a forbidden name occurs in it, whatever the case. */
  lemma SensitiveExact(name: string)
    ensures IsSensitive(name) <==> exists text, at :: text in FORBIDDEN && OccursAt(name, text, at)
  {
    assert forall text :: text in FORBIDDEN <==> text in SENSITIVE;
    forall text | text in FORBIDDEN
      ensures Contains(Lower(name), text) <==> exists at :: OccursAt(name, text, at)
    {
      OccursExact(name, text);
    }
  }

  // ---- Versions, from the stored bytes ----

  /** Some stored bytes name the transition. */
  ghost predicate AnyNames(c: Config, db: Tables, ecosystem: string, package: string, from: string, to: string) {
    exists id :: StoredNames(c, db, id, ecosystem, package, from, to)
  }

  lemma AnyScanned(c: Config, db: Tables, log: seq<Submission>, ecosystem: string, package: string, from: string,
      to: string)
    requires Represents(db, log) && forall s | s in log :: Vouched(c, s)
    ensures AnyNames(c, db, ecosystem, package, from, to) <==> ScanEvidence(log, ecosystem, package, from, to) != {}
  {
    TransitionsOfBytes(c, db, log, ecosystem, package, from, to);
    TransitionLookupScans(db, log, ecosystem, package, from, to);
  }

  /** The version lookup lists a pair exactly when some stored bytes name the transition
      from its first to its second version, and one of the two is asked for; each pair
      once, in order. */
  lemma PairsOfBytes(c: Config, db: Tables, log: seq<Submission>, ecosystem: string, package: string, version: string,
      from: string, to: string)
    requires Represents(db, log) && forall s | s in log :: Vouched(c, s)
    ensures var found := VersionLookup(db, ecosystem, package, version);
      && ((found.Some? && (from, to) in found.value) <==>
            version in {from, to} && AnyNames(c, db, ecosystem, package, from, to))
      && (found.Some? ==> found.value != [] && Increasing(PairLe, found.value))
  {
    VersionLookupScans(db, log, ecosystem, package, version);
    var scanned := ScanTransitions(log, ecosystem, package, version);
    PairLeTotal();
    OrderedIncreases(PairLe, scanned);
    AnyScanned(c, db, log, ecosystem, package, from, to);
    PairScanned(log, ecosystem, package, version, from, to);
  }

  lemma PairScanned(log: seq<Submission>, ecosystem: string, package: string, version: string, from: string, to: string)
    ensures (from, to) in ScanTransitions(log, ecosystem, package, version) <==>
      version in {from, to} && ScanEvidence(log, ecosystem, package, from, to) != {}
  {
    if (from, to) in ScanTransitions(log, ecosystem, package, version) {
      var id :| id in Ids(log) && IsFirst(log, id, ecosystem, package) && First(log, id).From() == from &&
          First(log, id).To() == to;
      assert id in ScanEvidence(log, ecosystem, package, from, to);
    }
    if id :| id in ScanEvidence(log, ecosystem, package, from, to) {
      assert id in Ids(log) && IsFirst(log, id, ecosystem, package);
    }
  }

  /** The package lookup lists the version. */
  ghost predicate Lists(db: Tables, ecosystem: string, package: string, version: string) {
    var found := PackageLookup(db, ecosystem, package);
    found.Some? && exists i :: 0 <= i < |found.value| && found.value[i].version == version
  }

  lemma ListsRows(db: Tables, ecosystem: string, package: string, version: string)
    ensures Lists(db, ecosystem, package, version) <==>
      version in Values(VersionRows(db, ecosystem, package), VersionOf)
  {
    var versions := Listing(Values(VersionRows(db, ecosystem, package), VersionOf));
    if version in versions {
      var i :| 0 <= i < |versions| && versions[i] == version;
      assert PackageLookup(db, ecosystem, package).value[i].version == version;
    }
  }

  /** A version of a package is listed exactly when some stored bytes name a transition
      of the package into it or out of it. */
  lemma VersionsOfBytes(c: Config, db: Tables, log: seq<Submission>, ecosystem: string, package: string,
      version: string)
    requires Represents(db, log) && forall s | s in log :: Vouched(c, s)
    ensures Lists(db, ecosystem, package, version) <==>
      exists other ::
        AnyNames(c, db, ecosystem, package, version, other) || AnyNames(c, db, ecosystem, package, other, version)
  {
    forall other
      ensures AnyNames(c, db, ecosystem, package, version, other) <==>
        ScanEvidence(log, ecosystem, package, version, other) != {}
      ensures AnyNames(c, db, ecosystem, package, other, version) <==>
        ScanEvidence(log, ecosystem, package, other, version) != {}
    {
      AnyScanned(c, db, log, ecosystem, package, version, other);
      AnyScanned(c, db, log, ecosystem, package, other, version);
    }
    VersionIsScanned(log, ecosystem, package, version);
    ListsRows(db, ecosystem, package, version);
    PackageVersionsAgree(db, log, ecosystem, package);
  }

  lemma VersionIsScanned(log: seq<Submission>, ecosystem: string, package: string, version: string)
    ensures version in ScanVersions(log, ecosystem, package) <==>
      exists other :: ScanEvidence(log, ecosystem, package, version, other) != {} ||
        ScanEvidence(log, ecosystem, package, other, version) != {}
  {
    if version in ScanVersions(log, ecosystem, package) {
      var id :| id in Ids(log) && IsFirst(log, id, ecosystem, package) &&
        (First(log, id).From() == version || First(log, id).To() == version);
      assert id in ScanEvidence(log, ecosystem, package, First(log, id).From(), First(log, id).To());
    }
    forall other, id | id in ScanEvidence(log, ecosystem, package, version, other) ||
        id in ScanEvidence(log, ecosystem, package, other, version)
      ensures version in ScanVersions(log, ecosystem, package)
    {
      assert id in Ids(log) && IsFirst(log, id, ecosystem, package);
    }
  }
}
