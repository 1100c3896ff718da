/** The aggregates of a transition, as the joins and groupings that compute them,
    and the log that they summarise. */
module Aggregates {
  import opened Wrappers
  import opened Evidence
  import opened Outcome
  import opened Tables
  import opened Log
  import opened Queries
  import opened Counting

  // ---- The joins ----

  /** The runs of a transition, named by their attestation. */
  ghost function RunsOf(db: Tables, transition: nat): set<nat> {
    set n | n in db.runs && db.runs[n].transitionId == transition
  }

  /** Each run with every environment row that has the id it refers to. */
  ghost function WithEnvironment(db: Tables, transition: nat): set<(nat, Key)> {
    set n, e | n in RunsOf(db, transition) && e in db.rows && e.EnvironmentKey? &&
        db.rows[e].id == db.runs[n].environmentId :: (n, e)
  }

  /** Each run with every methodology row that has the id it refers to. */
  ghost function WithMethodology(db: Tables, transition: nat): set<(nat, Key)> {
    set n, m | n in RunsOf(db, transition) && m in db.rows && m.MethodologyKey? &&
        db.rows[m].id == db.runs[n].methodologyId :: (n, m)
  }

  /** Each run with every attestation that has the id it refers to. */
  ghost function WithAttestation(db: Tables, transition: nat): set<(nat, string)> {
    set n, id | n in RunsOf(db, transition) && id in db.attestations && db.attestations[id].id == n :: (n, id)
  }

  ghost function IdentityRows(db: Tables, attestation: nat): set<Option<nat>> {
    set k | k in db.identities && k == attestation :: Some(k)
  }

  /** The identity rows that an attestation joins to, or one NULL row if there are none. */
  ghost function LeftJoined(db: Tables, attestation: nat): set<Option<nat>> {
    if IdentityRows(db, attestation) == {} then {None} else IdentityRows(db, attestation)
  }

  /** Each of those with its identities, or with none. */
  ghost function WithIdentity(db: Tables, transition: nat): set<((nat, string), Option<nat>)> {
    set row, ci | row in WithAttestation(db, transition) && ci in LeftJoined(db, row.0) :: (row, ci)
  }

  // ---- The grouped columns ----

  function Runtime(row: (nat, Key)): string {
    RuntimeOfKey(row.1)
  }

  function Os(row: (nat, Key)): string {
    OsOfKey(row.1)
  }

  function Architecture(row: (nat, Key)): string {
    ArchitectureOfKey(row.1)
  }

  function MethodologyVersion(row: (nat, Key)): string {
    VersionOfKey(row.1)
  }

  function RuntimeOfKey(e: Key): string {
    if e.EnvironmentKey? then e.runtime else ""
  }

  function OsOfKey(e: Key): string {
    if e.EnvironmentKey? then e.os else ""
  }

  function ArchitectureOfKey(e: Key): string {
    if e.EnvironmentKey? then e.architecture else ""
  }

  function VersionOfKey(m: Key): string {
    if m.MethodologyKey? then m.methodology.verificationMethodologyVersion else ""
  }

  function FactsOf(db: Tables, n: nat): RunFacts {
    if n in db.runs then db.runs[n].facts else RunFacts(ReviewRequiredFinding, "", "")
  }

  ghost function OutcomeIn(db: Tables): nat -> Verdict {
    (n: nat) => FactsOf(db, n).outcome
  }

  ghost function ProcessIn(db: Tables): nat -> string {
    (n: nat) => FactsOf(db, n).processCapability
  }

  /** A run without an identity counts as signed by a local key. */
  function AssuranceOf(row: ((nat, string), Option<nat>)): Assurance {
    if row.1.Some? then SigstoreKeylessCi else LocalDevelopmentKey
  }

  function AttestationId(row: (nat, string)): nat {
    row.0
  }

  ghost function SignerIn(db: Tables): ((nat, string)) -> nat {
    (row: (nat, string)) => if row.1 in db.attestations then db.attestations[row.1].signerId else 0
  }

  /** GET /v1/transitions/{ecosystem}/{package}/{from}/{to} */
  datatype Summary = Summary(
    verificationRuns: nat,
    uniqueEvidence: nat,
    uniqueSigners: nat,
    runtime: map<string, nat>,
    os: map<string, nat>,
    architecture: map<string, nat>,
    outcome: map<Verdict, nat>,
    methodology: map<string, nat>,
    process: map<string, nat>,
    assurance: map<Assurance, nat>)

  ghost function Summarise(db: Tables, transition: nat): Summary {
    Summary(
      |WithAttestation(db, transition)|,
      |Values(WithAttestation(db, transition), AttestationId)|,
      |Values(WithAttestation(db, transition), SignerIn(db))|,
      Groups(WithEnvironment(db, transition), Runtime),
      Groups(WithEnvironment(db, transition), Os),
      Groups(WithEnvironment(db, transition), Architecture),
      Groups(RunsOf(db, transition), OutcomeIn(db)),
      Groups(WithMethodology(db, transition), MethodologyVersion),
      Groups(RunsOf(db, transition), ProcessIn(db)),
      Groups(WithIdentity(db, transition), AssuranceOf))
  }

  /** The columns of a submission are the fields of the evidence it was made from. */
  lemma SubmissionColumns(id: string, document: Document, keyId: string, e: PublicEvidence, proof: Option<Binding>)
    ensures var s := SubmissionOf(id, document, keyId, e, proof);
      && s.WellTyped()
      && RuntimeOfKey(s.environment) == e.environment.runtime
      && OsOfKey(s.environment) == e.environment.os
      && ArchitectureOfKey(s.environment) == e.environment.architecture
      && VersionOfKey(s.methodology) == e.methodology.verificationMethodologyVersion
      && s.facts.outcome == ClassifyOutcome(e)
      && s.facts.processCapability == e.capabilities.processObservation.status
      && (PurlsMatch(e) ==> SubjectSpelled(s.subject))
  {
  }

  // ---- The same columns, read from the log ----

  ghost function EnvironmentIn(log: seq<Submission>, id: string): Key {
    if Seen(log, id) then First(log, id).environment else EnvironmentKey("", "", "", "", "")
  }

  ghost function MethodologyIn(log: seq<Submission>, id: string): Key {
    if Seen(log, id) then First(log, id).methodology else MethodologyKey(Methodology("", "", "", "", "", ""))
  }

  ghost function FactsIn(log: seq<Submission>, id: string): RunFacts {
    if Seen(log, id) then First(log, id).facts else RunFacts(ReviewRequiredFinding, "", "")
  }

  ghost function KeyIdIn(log: seq<Submission>, id: string): string {
    if Seen(log, id) then First(log, id).keyId else ""
  }

  function AssuranceIn(log: seq<Submission>, id: string): Assurance {
    if Bound(log, id).Some? then SigstoreKeylessCi else LocalDevelopmentKey
  }

  /** The grouped columns of one attestation. */
  datatype Columns = Columns(
    runtime: string, os: string, architecture: string, outcome: Verdict, methodology: string, process: string,
    signer: string, assurance: Assurance)

  function PickRuntime(c: Columns): string { c.runtime }
  function PickOs(c: Columns): string { c.os }
  function PickArchitecture(c: Columns): string { c.architecture }
  function PickOutcome(c: Columns): Verdict { c.outcome }
  function PickMethodology(c: Columns): string { c.methodology }
  function PickProcess(c: Columns): string { c.process }
  function PickSigner(c: Columns): string { c.signer }
  function PickAssurance(c: Columns): Assurance { c.assurance }

  ghost function By<V>(columns: string -> Columns, pick: Columns -> V): string -> V {
    id => pick(columns(id))
  }

  /** The summary of some attestations, each counted once. */
  ghost function SummaryBy(ids: set<string>, columns: string -> Columns): Summary {
    Summary(
      |ids|,
      |ids|,
      |Values(ids, By(columns, PickSigner))|,
      Groups(ids, By(columns, PickRuntime)),
      Groups(ids, By(columns, PickOs)),
      Groups(ids, By(columns, PickArchitecture)),
      Groups(ids, By(columns, PickOutcome)),
      Groups(ids, By(columns, PickMethodology)),
      Groups(ids, By(columns, PickProcess)),
      Groups(ids, By(columns, PickAssurance)))
  }

  ghost function LogColumnsAt(log: seq<Submission>, id: string): Columns {
    Columns(
      RuntimeOfKey(EnvironmentIn(log, id)), OsOfKey(EnvironmentIn(log, id)), ArchitectureOfKey(EnvironmentIn(log, id)),
      FactsIn(log, id).outcome, VersionOfKey(MethodologyIn(log, id)), FactsIn(log, id).processCapability,
      KeyIdIn(log, id), AssuranceIn(log, id))
  }

  ghost function LogColumns(log: seq<Submission>): string -> Columns {
    id => LogColumnsAt(log, id)
  }

  ghost function LogSummary(log: seq<Submission>, ids: set<string>): Summary {
    SummaryBy(ids, LogColumns(log))
  }

  // ---- Every join has one row for each evidence id ----

  function StoredId(db: Tables, id: string): nat {
    if id in db.attestations then db.attestations[id].id else 0
  }

  ghost function RowId(db: Tables): string -> nat {
    id => StoredId(db, id)
  }

  ghost function AttestationRowOf(db: Tables): string -> (nat, string) {
    id => (StoredId(db, id), id)
  }

  ghost function EnvironmentRowOf(db: Tables, log: seq<Submission>): string -> (nat, Key) {
    id => (StoredId(db, id), EnvironmentIn(log, id))
  }

  ghost function MethodologyRowOf(db: Tables, log: seq<Submission>): string -> (nat, Key) {
    id => (StoredId(db, id), MethodologyIn(log, id))
  }

  function IdentityOf(db: Tables, id: string): Option<nat> {
    var n := StoredId(db, id);
    if n in db.identities then Some(n) else None
  }

  ghost function IdentityRowOf(db: Tables): string -> ((nat, string), Option<nat>) {
    id => ((StoredId(db, id), id), IdentityOf(db, id))
  }

  /** The evidence that a run row belongs to. */
  lemma RunOwner(db: Tables, transition: nat, n: nat) returns (id: string)
    requires AllOwned(db) && n in RunsOf(db, transition)
    ensures id in EvidenceOf(db, transition) && RowId(db)(id) == n
  {
    assert Owned(db, n);
    id :| id in db.attestations && db.attestations[id].id == n;
  }

  lemma RunsMatch(db: Tables, transition: nat)
    requires AttestationIdsUnique(db) && AllOwned(db)
    ensures Matches(EvidenceOf(db, transition), RunsOf(db, transition), RowId(db))
  {
    forall n | n in RunsOf(db, transition)
      ensures exists id :: id in EvidenceOf(db, transition) && RowId(db)(id) == n
    {
      var id := RunOwner(db, transition, n);
    }
  }

  lemma AttestationsMatch(db: Tables, transition: nat)
    requires AttestationIdsUnique(db) && AllOwned(db)
    ensures Matches(EvidenceOf(db, transition), WithAttestation(db, transition), AttestationRowOf(db))
  {
    forall id | id in EvidenceOf(db, transition)
      ensures AttestationRowOf(db)(id) in WithAttestation(db, transition)
    {
      assert AttestationRowOf(db)(id) == (db.attestations[id].id, id);
    }
    forall row | row in WithAttestation(db, transition)
      ensures row.1 in EvidenceOf(db, transition) && AttestationRowOf(db)(row.1) == row
    {
    }
  }

  lemma OneIdentity(db: Tables, id: string)
    requires id in db.attestations
    ensures forall ci :: ci in LeftJoined(db, db.attestations[id].id) <==> ci == IdentityOf(db, id)
  {
    var a := db.attestations[id].id;
    assert IdentityRows(db, a) == if a in db.identities then {Some(a)} else {};
  }

  lemma IdentitiesMatch(db: Tables, transition: nat)
    requires AttestationIdsUnique(db) && AllOwned(db)
    ensures Matches(EvidenceOf(db, transition), WithIdentity(db, transition), IdentityRowOf(db))
  {
    forall id | id in EvidenceOf(db, transition)
      ensures IdentityRowOf(db)(id) in WithIdentity(db, transition)
    {
      OneIdentity(db, id);
      var row := (db.attestations[id].id, id);
      assert row in WithAttestation(db, transition);
      assert IdentityRowOf(db)(id) == (row, IdentityOf(db, id));
    }
    forall joined | joined in WithIdentity(db, transition)
      ensures joined.0.1 in EvidenceOf(db, transition) && IdentityRowOf(db)(joined.0.1) == joined
    {
      OneIdentity(db, joined.0.1);
    }
  }

  /** The environment and methodology that a run row joins to. */
  lemma RunJoins(db: Tables, log: seq<Submission>, transition: nat, id: string)
    requires IdsUnique(db.rows) && AllStored(db, log) && id in EvidenceOf(db, transition)
    ensures var n := db.attestations[id].id;
      && n in RunsOf(db, transition)
      && (forall e :: (n, e) in WithEnvironment(db, transition) <==> e == EnvironmentIn(log, id))
      && (forall m :: (n, m) in WithMethodology(db, transition) <==> m == MethodologyIn(log, id))
  {
    StoredIsLinked(db, log, id);
    var n := db.attestations[id].id;
    var s := First(log, id);
    forall e
      ensures (n, e) in WithEnvironment(db, transition) <==> e == s.environment
    {
      if (n, e) in WithEnvironment(db, transition) {
        assert TableOf(e) == TableOf(s.environment);
      }
    }
    forall m
      ensures (n, m) in WithMethodology(db, transition) <==> m == s.methodology
    {
      if (n, m) in WithMethodology(db, transition) {
        assert TableOf(m) == TableOf(s.methodology);
      }
    }
  }

  lemma EnvironmentsMatch(db: Tables, log: seq<Submission>, transition: nat)
    requires IdsUnique(db.rows) && AttestationIdsUnique(db) && AllOwned(db) && AllStored(db, log)
    ensures Matches(EvidenceOf(db, transition), WithEnvironment(db, transition), EnvironmentRowOf(db, log))
  {
    forall id | id in EvidenceOf(db, transition)
      ensures EnvironmentRowOf(db, log)(id) in WithEnvironment(db, transition)
    {
      RunJoins(db, log, transition, id);
    }
    forall row | row in WithEnvironment(db, transition)
      ensures exists id :: id in EvidenceOf(db, transition) && EnvironmentRowOf(db, log)(id) == row
    {
      var id := RunOwner(db, transition, row.0);
      RunJoins(db, log, transition, id);
      assert row == (row.0, row.1) && EnvironmentRowOf(db, log)(id) == row;
    }
  }

  lemma MethodologiesMatch(db: Tables, log: seq<Submission>, transition: nat)
    requires IdsUnique(db.rows) && AttestationIdsUnique(db) && AllOwned(db) && AllStored(db, log)
    ensures Matches(EvidenceOf(db, transition), WithMethodology(db, transition), MethodologyRowOf(db, log))
  {
    forall id | id in EvidenceOf(db, transition)
      ensures MethodologyRowOf(db, log)(id) in WithMethodology(db, transition)
    {
      RunJoins(db, log, transition, id);
    }
    forall row | row in WithMethodology(db, transition)
      ensures exists id :: id in EvidenceOf(db, transition) && MethodologyRowOf(db, log)(id) == row
    {
      var id := RunOwner(db, transition, row.0);
      RunJoins(db, log, transition, id);
      assert row == (row.0, row.1) && MethodologyRowOf(db, log)(id) == row;
    }
  }

  ghost function SignerRowOf(db: Tables): string -> nat {
    keyId => if SignerKey(keyId) in db.rows then db.rows[SignerKey(keyId)].id else 0
  }

  /** Signer rows stand for key ids one to one. */
  lemma SignersMatch(db: Tables, log: seq<Submission>, transition: nat)
    requires IdsUnique(db.rows) && AllStored(db, log)
    ensures Matches(
      Values(EvidenceOf(db, transition), By(LogColumns(log), PickSigner)),
          Values(WithAttestation(db, transition), SignerIn(db)), SignerRowOf(db))
  {
    forall id | id in EvidenceOf(db, transition)
      ensures SignerKey(LogColumnsAt(log, id).signer) in db.rows &&
          SignerRowOf(db)(LogColumnsAt(log, id).signer) == db.attestations[id].signerId
    {
      assert Stored(db, log, id);
    }
    var keyIds := Values(EvidenceOf(db, transition), By(LogColumns(log), PickSigner));
    var signers := Values(WithAttestation(db, transition), SignerIn(db));
    forall keyId | keyId in keyIds
      ensures SignerRowOf(db)(keyId) in signers && SignerKey(keyId) in db.rows
    {
      var id :| id in EvidenceOf(db, transition) && LogColumnsAt(log, id).signer == keyId;
      assert (db.attestations[id].id, id) in WithAttestation(db, transition);
      assert SignerIn(db)((db.attestations[id].id, id)) == SignerRowOf(db)(keyId);
    }
    forall signer | signer in signers
      ensures exists keyId :: keyId in keyIds && SignerRowOf(db)(keyId) == signer
    {
      var row :| row in WithAttestation(db, transition) && SignerIn(db)(row) == signer;
      assert row.1 in EvidenceOf(db, transition);
    }
    forall x, y | x in keyIds && y in keyIds && SignerRowOf(db)(x) == SignerRowOf(db)(y)
      ensures x == y
    {
      assert TableOf(SignerKey(x)) == TableOf(SignerKey(y));
    }
  }

  // ---- The summary ----

  lemma EnvironmentGroups(db: Tables, log: seq<Submission>, transition: nat)
    requires IdsUnique(db.rows) && AttestationIdsUnique(db) && AllOwned(db) && AllStored(db, log)
    ensures var ids := EvidenceOf(db, transition);
      && Groups(WithEnvironment(db, transition), Runtime) == Groups(ids, By(LogColumns(log), PickRuntime))
      && Groups(WithEnvironment(db, transition), Os) == Groups(ids, By(LogColumns(log), PickOs))
      && Groups(WithEnvironment(db, transition), Architecture) == Groups(ids, By(LogColumns(log), PickArchitecture))
  {
    var ids := EvidenceOf(db, transition);
    var rows := WithEnvironment(db, transition);
    var onto := EnvironmentRowOf(db, log);
    EnvironmentsMatch(db, log, transition);
    MatchesGroups(ids, By(LogColumns(log), PickRuntime), rows, Runtime, onto);
    MatchesGroups(ids, By(LogColumns(log), PickOs), rows, Os, onto);
    MatchesGroups(ids, By(LogColumns(log), PickArchitecture), rows, Architecture, onto);
  }

  lemma RunFactsScan(db: Tables, log: seq<Submission>, transition: nat)
    requires AllStored(db, log)
    ensures forall id | id in EvidenceOf(db, transition) :: FactsOf(db, StoredId(db, id)) == FactsIn(log, id)
  {
    forall id | id in EvidenceOf(db, transition)
      ensures FactsOf(db, StoredId(db, id)) == FactsIn(log, id)
    {
      StoredIsLinked(db, log, id);
    }
  }

  lemma OutcomeGroups(db: Tables, log: seq<Submission>, transition: nat)
    requires AttestationIdsUnique(db) && AllOwned(db) && AllStored(db, log)
    ensures Groups(RunsOf(db, transition), OutcomeIn(db)) == Groups(EvidenceOf(db, transition),
        By(LogColumns(log), PickOutcome))
  {
    RunsMatch(db, transition);
    RunFactsScan(db, log, transition);
    MatchesGroups(EvidenceOf(db, transition), By(LogColumns(log), PickOutcome), RunsOf(db, transition), OutcomeIn(db),
        RowId(db));
  }

  lemma ProcessGroups(db: Tables, log: seq<Submission>, transition: nat)
    requires AttestationIdsUnique(db) && AllOwned(db) && AllStored(db, log)
    ensures Groups(RunsOf(db, transition), ProcessIn(db)) == Groups(EvidenceOf(db, transition),
        By(LogColumns(log), PickProcess))
  {
    RunsMatch(db, transition);
    RunFactsScan(db, log, transition);
    MatchesGroups(EvidenceOf(db, transition), By(LogColumns(log), PickProcess), RunsOf(db, transition), ProcessIn(db),
        RowId(db));
  }

  lemma IdentityGroups(db: Tables, log: seq<Submission>, transition: nat)
    requires AttestationIdsUnique(db) && AllOwned(db) && AllStored(db, log)
    ensures Groups(WithIdentity(db, transition), AssuranceOf) == Groups(EvidenceOf(db, transition),
        By(LogColumns(log), PickAssurance))
  {
    IdentitiesMatch(db, transition);
    forall id | id in EvidenceOf(db, transition)
      ensures AssuranceOf(IdentityRowOf(db)(id)) == LogColumnsAt(log, id).assurance
    {
      assert Stored(db, log, id);
    }
    MatchesGroups(EvidenceOf(db, transition), By(LogColumns(log), PickAssurance), WithIdentity(db, transition),
        AssuranceOf, IdentityRowOf(db));
  }

  lemma TotalsScan(db: Tables, log: seq<Submission>, transition: nat)
    requires IdsUnique(db.rows) && AttestationIdsUnique(db) && AllOwned(db) && AllStored(db, log)
    ensures var ids := EvidenceOf(db, transition);
      && |WithAttestation(db, transition)| == |ids|
      && |Values(WithAttestation(db, transition), AttestationId)| == |ids|
      && |Values(WithAttestation(db, transition), SignerIn(db))| == |Values(ids, By(LogColumns(log), PickSigner))|
  {
    var ids := EvidenceOf(db, transition);
    AttestationsMatch(db, transition);
    MatchesCount(ids, WithAttestation(db, transition), AttestationRowOf(db));
    RunsMatch(db, transition);
    MatchesCount(ids, RunsOf(db, transition), RowId(db));
    assert Values(WithAttestation(db, transition), AttestationId) == RunsOf(db, transition) by {
      forall n | n in RunsOf(db, transition)
        ensures n in Values(WithAttestation(db, transition), AttestationId)
      {
        var id := RunOwner(db, transition, n);
        assert (n, id) in WithAttestation(db, transition) && AttestationId((n, id)) == n;
      }
    }
    SignersMatch(db, log, transition);
    MatchesCount(Values(ids, By(LogColumns(log), PickSigner)), Values(WithAttestation(db, transition), SignerIn(db)),
        SignerRowOf(db));
  }

  /** Every figure of the summary is the figure that the log gives. */
  lemma SummaryScans(db: Tables, log: seq<Submission>, transition: nat)
    requires Represents(db, log)
    ensures Summarise(db, transition) == LogSummary(log, EvidenceOf(db, transition))
  {
    TotalsScan(db, log, transition);
    EnvironmentGroups(db, log, transition);
    OutcomeGroups(db, log, transition);
    ProcessGroups(db, log, transition);
    IdentityGroups(db, log, transition);
    MethodologiesMatch(db, log, transition);
    MatchesGroups(EvidenceOf(db, transition), By(LogColumns(log), PickMethodology), WithMethodology(db, transition),
        MethodologyVersion, MethodologyRowOf(db, log));
  }

  /** Each grouping adds up to the number of runs, which is the number of distinct
      attestations and at least the number of distinct signers. */
  lemma SummaryConserves(db: Tables, log: seq<Submission>, transition: nat)
    requires Represents(db, log)
    ensures var all := Summarise(db, transition);
      var runs := all.verificationRuns;
      && Total(all.runtime) == runs && Total(all.os) == runs && Total(all.architecture) == runs
      && Total(all.outcome) == runs && Total(all.methodology) == runs && Total(all.process) == runs
      && Total(all.assurance) == runs
      && all.uniqueEvidence == runs && all.uniqueSigners <= runs
  {
    SummaryScans(db, log, transition);
    var ids := EvidenceOf(db, transition);
    GroupsTotal(ids, By(LogColumns(log), PickRuntime));
    GroupsTotal(ids, By(LogColumns(log), PickOs));
    GroupsTotal(ids, By(LogColumns(log), PickArchitecture));
    GroupsTotal(ids, By(LogColumns(log), PickOutcome));
    GroupsTotal(ids, By(LogColumns(log), PickMethodology));
    GroupsTotal(ids, By(LogColumns(log), PickProcess));
    GroupsTotal(ids, By(LogColumns(log), PickAssurance));
    ValuesCount(ids, By(LogColumns(log), PickSigner));
  }
}
