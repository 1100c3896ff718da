/** What the summary of a transition says of the evidence itself. */
module Figures {
  import opened Wrappers
  import opened Evidence
  import opened Outcome
  import opened Tables
  import opened Log
  import opened Queries
  import opened Counting
  import opened Aggregates
  import opened Conservation
  import opened Ingest

  // ---- The summary, from the stored bytes ----

  /** What the bytes stored for an id say. */
  function StoredParsed(c: Config, db: Tables, id: string): Option<Parsed> {
    if RawEvidence(db, id).None? || Inspect(c, RawEvidence(db, id).value).Err? then None
    else Some(Inspect(c, RawEvidence(db, id).value).value)
  }

  /** Only the columns of the ids themselves matter. */
  lemma SameSummary(ids: set<string>, columns: string -> Columns, others: string -> Columns)
    requires forall id | id in ids :: columns(id) == others(id)
    ensures SummaryBy(ids, columns) == SummaryBy(ids, others)
  {
    GroupsAgree(ids, By(columns, PickRuntime), By(others, PickRuntime));
    GroupsAgree(ids, By(columns, PickOs), By(others, PickOs));
    GroupsAgree(ids, By(columns, PickArchitecture), By(others, PickArchitecture));
    GroupsAgree(ids, By(columns, PickOutcome), By(others, PickOutcome));
    GroupsAgree(ids, By(columns, PickMethodology), By(others, PickMethodology));
    GroupsAgree(ids, By(columns, PickProcess), By(others, PickProcess));
    GroupsAgree(ids, By(columns, PickSigner), By(others, PickSigner));
    GroupsAgree(ids, By(columns, PickAssurance), By(others, PickAssurance));
  }

  /** The columns, read from evidence. */
  function EvidenceColumns(e: PublicEvidence, signer: string, assurance: Assurance): Columns {
    Columns(e.environment.runtime, e.environment.os, e.environment.architecture, ClassifyOutcome(e),
            e.methodology.verificationMethodologyVersion, e.capabilities.processObservation.status, signer, assurance)
  }

  const NO_COLUMNS := Columns("", "", "", ReviewRequiredFinding, "", "", "", LocalDevelopmentKey)

  /** The columns of an id, read from its stored bytes and its stored identity. */
  function ColumnsAt(c: Config, db: Tables, id: string): Columns {
    if StoredParsed(c, db, id).None? then NO_COLUMNS
    else
      var p := StoredParsed(c, db, id).value;
      EvidenceColumns(
        p.statement.attested.evidence,
        if p.envelope.signatures == [] then "" else p.envelope.signatures[0].keyid,
        if IdentityOf(db, id).Some? then SigstoreKeylessCi else LocalDevelopmentKey)
  }

  ghost function StoredColumns(c: Config, db: Tables): string -> Columns {
    id => ColumnsAt(c, db, id)
  }

  /** The columns of a submission are the fields of the evidence in its bytes. */
  lemma MadeColumns(c: Config, s: Submission)
    requires MadeFromBytes(c, s)
    ensures var p := Inspect(c, s.document.original).value;
      && (forall assurance :: EvidenceColumns(p.statement.attested.evidence, s.keyId, assurance) ==
           Columns(RuntimeOfKey(s.environment), OsOfKey(s.environment), ArchitectureOfKey(s.environment),
               s.facts.outcome,
                   VersionOfKey(s.methodology), s.facts.processCapability, s.keyId, assurance))
      && s.keyId == if p.envelope.signatures == [] then "" else p.envelope.signatures[0].keyid
  {
    var p := Inspect(c, s.document.original).value;
    SubmissionColumns(p.id, s.document, s.keyId, p.statement.attested.evidence, s.proof);
  }

  lemma ColumnsAreStored(c: Config, db: Tables, log: seq<Submission>, id: string)
    requires Seen(log, id) && MadeFromBytes(c, First(log, id))
    requires id in db.attestations && Stored(db, log, id)
    ensures StoredParsed(c, db, id).Some? && LogColumnsAt(log, id) == ColumnsAt(c, db, id)
  {
    MadeColumns(c, First(log, id));
  }

  lemma FirstIsMade(c: Config, db: Tables, log: seq<Submission>, transition: nat)
    requires AllStored(db, log) && forall s | s in log :: Vouched(c, s)
    ensures forall id | id in EvidenceOf(db, transition) :: Seen(log, id) && MadeFromBytes(c, First(log, id))
  {
    forall id | id in EvidenceOf(db, transition)
      ensures Seen(log, id) && MadeFromBytes(c, First(log, id))
    {
      assert First(log, id) in log && Vouched(c, First(log, id));
    }
  }

  /** Every figure of the summary is what the stored evidence of the transition says:
      anyone who downloads it can compute the summary. */
  lemma SummaryOfEvidence(c: Config, db: Tables, log: seq<Submission>, transition: nat)
    requires Represents(db, log) && forall s | s in log :: Vouched(c, s)
    ensures forall id | id in EvidenceOf(db, transition) :: StoredParsed(c, db, id).Some?
    ensures Summarise(db, transition) == SummaryBy(EvidenceOf(db, transition), StoredColumns(c, db))
  {
    var ids := EvidenceOf(db, transition);
    SummaryScans(db, log, transition);
    FirstIsMade(c, db, log, transition);
    forall id | id in ids
      ensures StoredParsed(c, db, id).Some? && LogColumnsAt(log, id) == ColumnsAt(c, db, id)
    {
      assert Stored(db, log, id);
      ColumnsAreStored(c, db, log, id);
    }
    SameSummary(ids, LogColumns(log), StoredColumns(c, db));
  }

  // ---- The behaviour groups, from the stored bytes ----

  ghost function BehaviorGroups(db: Tables, transition: nat): map<Option<string>, nat> {
    Groups(BehaviorRows(db, transition), KindIn(db))
  }

  /** How many findings of a kind the bytes stored for an id report. */
  function StoredKindSize(c: Config, db: Tables, id: string, kind: string): nat {
    if StoredParsed(c, db, id).None? then 0
    else
      var o := StoredParsed(c, db, id).value.statement.attested.evidence.observations;
      if kind == "FILESYSTEM_PATH" then |o.filesystem| else if kind == "PROCESS_PATTERN" then |o.processes| else 0
  }

  ghost function StoredKindSizes(c: Config, db: Tables, ids: set<string>, kind: string): map<string, nat> {
    map id | id in ids :: StoredKindSize(c, db, id, kind)
  }

  lemma KindSizeIsStored(c: Config, db: Tables, log: seq<Submission>, id: string, kind: string)
    requires Seen(log, id) && MadeFromBytes(c, First(log, id))
    requires id in db.attestations && Stored(db, log, id)
    ensures StoredKindSize(c, db, id, kind) == KindSize(First(log, id).observed, kind)
  {
  }

  lemma SizesAreStored(c: Config, db: Tables, log: seq<Submission>, ids: set<string>, kind: string)
    requires AllStored(db, log) && forall id | id in ids :: Seen(log, id) && MadeFromBytes(c, First(log, id))
    ensures StoredKindSizes(c, db, ids, kind) == LogKindSizes(log, ids, kind)
  {
    forall id | id in ids
      ensures StoredKindSize(c, db, id, kind) == KindSize(First(log, id).observed, kind)
    {
      assert Stored(db, log, id);
      KindSizeIsStored(c, db, log, id, kind);
    }
  }

  /** Each behaviour group counts the findings of its kind in the stored evidence. */
  lemma BehaviorOfEvidence(c: Config, db: Tables, log: seq<Submission>, transition: nat, kind: string)
    requires Represents(db, log) && forall s | s in log :: Vouched(c, s)
    ensures CountOf(BehaviorGroups(db, transition), Some(kind)) ==
            Total(StoredKindSizes(c, db, EvidenceOf(db, transition), kind))
  {
    BehaviorConserved(db, log, transition, kind);
    CountOfGroups(BehaviorRows(db, transition), KindIn(db), Some(kind));
    FirstIsMade(c, db, log, transition);
    SizesAreStored(c, db, log, EvidenceOf(db, transition), kind);
  }

  // ---- Each figure, by name ----

  /** The evidence in the bytes stored for an id. */
  function EvidenceAt(c: Config, db: Tables, id: string): Option<PublicEvidence> {
    if StoredParsed(c, db, id).None? then None else Some(StoredParsed(c, db, id).value.statement.attested.evidence)
  }

  /** The group of a value counts the ids that have it. */
  lemma GroupReads<V(!new)>(ids: set<string>, columns: string -> Columns, pick: Columns -> V, value: V,
      chosen: set<string>)
    requires forall id :: id in chosen <==> id in ids && pick(columns(id)) == value
    ensures CountOf(Groups(ids, By(columns, pick)), value) == |chosen|
  {
    CountOfGroups(ids, By(columns, pick), value);
    assert Class(ids, By(columns, pick), value) == chosen;
  }

  predicate RuntimeIs(c: Config, db: Tables, id: string, value: string) {
    match EvidenceAt(c, db, id)
    case None => false
    case Some(e) => e.environment.runtime == value
  }

  ghost function HavingRuntime(c: Config, db: Tables, ids: set<string>, value: string): set<string> {
    set id | id in ids && RuntimeIs(c, db, id, value)
  }

  predicate OsIs(c: Config, db: Tables, id: string, value: string) {
    match EvidenceAt(c, db, id)
    case None => false
    case Some(e) => e.environment.os == value
  }

  ghost function HavingOs(c: Config, db: Tables, ids: set<string>, value: string): set<string> {
    set id | id in ids && OsIs(c, db, id, value)
  }

  predicate ArchitectureIs(c: Config, db: Tables, id: string, value: string) {
    match EvidenceAt(c, db, id)
    case None => false
    case Some(e) => e.environment.architecture == value
  }

  ghost function HavingArchitecture(c: Config, db: Tables, ids: set<string>, value: string): set<string> {
    set id | id in ids && ArchitectureIs(c, db, id, value)
  }

  predicate MethodologyIs(c: Config, db: Tables, id: string, value: string) {
    match EvidenceAt(c, db, id)
    case None => false
    case Some(e) => e.methodology.verificationMethodologyVersion == value
  }

  ghost function HavingMethodology(c: Config, db: Tables, ids: set<string>, value: string): set<string> {
    set id | id in ids && MethodologyIs(c, db, id, value)
  }

  predicate ProcessIs(c: Config, db: Tables, id: string, value: string) {
    match EvidenceAt(c, db, id)
    case None => false
    case Some(e) => e.capabilities.processObservation.status == value
  }

  ghost function HavingProcess(c: Config, db: Tables, ids: set<string>, value: string): set<string> {
    set id | id in ids && ProcessIs(c, db, id, value)
  }

  predicate OutcomeIs(c: Config, db: Tables, id: string, value: Verdict) {
    match EvidenceAt(c, db, id)
    case None => false
    case Some(e) => ClassifyOutcome(e) == value
  }

  ghost function HavingOutcome(c: Config, db: Tables, ids: set<string>, value: Verdict): set<string> {
    set id | id in ids && OutcomeIs(c, db, id, value)
  }

  ghost predicate AllRead(c: Config, db: Tables, ids: set<string>) {
    forall id | id in ids :: StoredParsed(c, db, id).Some?
  }

  lemma RuntimeReads(c: Config, db: Tables, ids: set<string>, value: string)
    requires AllRead(c, db, ids)
    ensures CountOf(SummaryBy(ids, StoredColumns(c, db)).runtime, value) == |HavingRuntime(c, db, ids, value)|
  {
    GroupReads(ids, StoredColumns(c, db), PickRuntime, value, HavingRuntime(c, db, ids, value));
  }

  lemma OsReads(c: Config, db: Tables, ids: set<string>, value: string)
    requires AllRead(c, db, ids)
    ensures CountOf(SummaryBy(ids, StoredColumns(c, db)).os, value) == |HavingOs(c, db, ids, value)|
  {
    GroupReads(ids, StoredColumns(c, db), PickOs, value, HavingOs(c, db, ids, value));
  }

  lemma ArchitectureReads(c: Config, db: Tables, ids: set<string>, value: string)
    requires AllRead(c, db, ids)
    ensures CountOf(SummaryBy(ids, StoredColumns(c, db)).architecture, value) == |HavingArchitecture(c, db, ids, value)|
  {
    GroupReads(ids, StoredColumns(c, db), PickArchitecture, value, HavingArchitecture(c, db, ids, value));
  }

  lemma MethodologyReads(c: Config, db: Tables, ids: set<string>, value: string)
    requires AllRead(c, db, ids)
    ensures CountOf(SummaryBy(ids, StoredColumns(c, db)).methodology, value) == |HavingMethodology(c, db, ids, value)|
  {
    GroupReads(ids, StoredColumns(c, db), PickMethodology, value, HavingMethodology(c, db, ids, value));
  }

  lemma ProcessReads(c: Config, db: Tables, ids: set<string>, value: string)
    requires AllRead(c, db, ids)
    ensures CountOf(SummaryBy(ids, StoredColumns(c, db)).process, value) == |HavingProcess(c, db, ids, value)|
  {
    GroupReads(ids, StoredColumns(c, db), PickProcess, value, HavingProcess(c, db, ids, value));
  }

  lemma OutcomeColumn(c: Config, db: Tables, id: string, value: Verdict)
    requires StoredParsed(c, db, id).Some?
    ensures PickOutcome(ColumnsAt(c, db, id)) == value <==> OutcomeIs(c, db, id, value)
  {
  }

  lemma OutcomeReads(c: Config, db: Tables, ids: set<string>, value: Verdict)
    requires AllRead(c, db, ids)
    ensures CountOf(SummaryBy(ids, StoredColumns(c, db)).outcome, value) == |HavingOutcome(c, db, ids, value)|
  {
    forall id | id in ids
      ensures PickOutcome(StoredColumns(c, db)(id)) == value <==> OutcomeIs(c, db, id, value)
    {
      OutcomeColumn(c, db, id, value);
    }
    GroupReads(ids, StoredColumns(c, db), PickOutcome, value, HavingOutcome(c, db, ids, value));
  }

  /** Every named figure of the summary counts the ids whose stored evidence has the
      value in the field of that name. */
  lemma FiguresRead(c: Config, db: Tables, log: seq<Submission>, transition: nat)
    requires Represents(db, log) && forall s | s in log :: Vouched(c, s)
    ensures var ids, s := EvidenceOf(db, transition), Summarise(db, transition);
      && s.verificationRuns == |ids| && s.uniqueEvidence == |ids|
      && (forall value :: CountOf(s.runtime, value) == |HavingRuntime(c, db, ids, value)|)
      && (forall value :: CountOf(s.os, value) == |HavingOs(c, db, ids, value)|)
      && (forall value :: CountOf(s.architecture, value) == |HavingArchitecture(c, db, ids, value)|)
      && (forall value :: CountOf(s.methodology, value) == |HavingMethodology(c, db, ids, value)|)
      && (forall value :: CountOf(s.process, value) == |HavingProcess(c, db, ids, value)|)
      && (forall value :: CountOf(s.outcome, value) == |HavingOutcome(c, db, ids, value)|)
  {
    var ids := EvidenceOf(db, transition);
    SummaryOfEvidence(c, db, log, transition);
    forall value
      ensures CountOf(SummaryBy(ids, StoredColumns(c, db)).runtime, value) == |HavingRuntime(c, db, ids, value)|
    {
      RuntimeReads(c, db, ids, value);
    }
    forall value
      ensures CountOf(SummaryBy(ids, StoredColumns(c, db)).os, value) == |HavingOs(c, db, ids, value)|
    {
      OsReads(c, db, ids, value);
    }
    forall value
      ensures CountOf(SummaryBy(ids, StoredColumns(c, db)).architecture, value) ==
              |HavingArchitecture(c, db, ids, value)|
    {
      ArchitectureReads(c, db, ids, value);
    }
    forall value
      ensures CountOf(SummaryBy(ids, StoredColumns(c, db)).methodology, value) == |HavingMethodology(c, db, ids, value)|
    {
      MethodologyReads(c, db, ids, value);
    }
    forall value
      ensures CountOf(SummaryBy(ids, StoredColumns(c, db)).process, value) == |HavingProcess(c, db, ids, value)|
    {
      ProcessReads(c, db, ids, value);
    }
    forall value
      ensures CountOf(SummaryBy(ids, StoredColumns(c, db)).outcome, value) == |HavingOutcome(c, db, ids, value)|
    {
      OutcomeReads(c, db, ids, value);
    }
  }

  // ---- Signers and identities ----

  function SignerAt(c: Config, db: Tables, id: string): string {
    if StoredParsed(c, db, id).None? || StoredParsed(c, db, id).value.envelope.signatures == [] then ""
    else StoredParsed(c, db, id).value.envelope.signatures[0].keyid
  }

  ghost function ProvedIn(db: Tables, ids: set<string>): set<string> {
    set id | id in ids && id in db.attestations && db.attestations[id].id in db.identities
  }

  lemma AssurancesRead(c: Config, db: Tables, ids: set<string>)
    requires AllRead(c, db, ids)
    ensures var assurance := SummaryBy(ids, StoredColumns(c, db)).assurance;
      && CountOf(assurance, SigstoreKeylessCi) == |ProvedIn(db, ids)|
      && CountOf(assurance, LocalDevelopmentKey) == |ids - ProvedIn(db, ids)|
  {
    GroupReads(ids, StoredColumns(c, db), PickAssurance, SigstoreKeylessCi, ProvedIn(db, ids));
    GroupReads(ids, StoredColumns(c, db), PickAssurance, LocalDevelopmentKey, ids - ProvedIn(db, ids));
  }

  lemma SignerColumns(c: Config, db: Tables, ids: set<string>)
    requires AllRead(c, db, ids)
    ensures SummaryBy(ids, StoredColumns(c, db)).uniqueSigners == |set id | id in ids :: SignerAt(c, db, id)|
  {
    assert Values(ids, By(StoredColumns(c, db), PickSigner)) == set id | id in ids :: SignerAt(c, db, id);
  }

  /** The signers are the distinct key ids in the stored envelopes, and the assurances
      count the ids with a stored identity and those without one. */
  lemma SignersRead(c: Config, db: Tables, log: seq<Submission>, transition: nat)
    requires Represents(db, log) && forall s | s in log :: Vouched(c, s)
    ensures var ids, s := EvidenceOf(db, transition), Summarise(db, transition);
      && s.uniqueSigners == |set id | id in ids :: SignerAt(c, db, id)|
      && CountOf(s.assurance, SigstoreKeylessCi) == |ProvedIn(db, ids)|
      && CountOf(s.assurance, LocalDevelopmentKey) == |ids - ProvedIn(db, ids)|
  {
    SummaryOfEvidence(c, db, log, transition);
    AssurancesRead(c, db, EvidenceOf(db, transition));
    SignerColumns(c, db, EvidenceOf(db, transition));
  }
}
