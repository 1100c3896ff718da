/** `persist`, statement by statement. `Execute` is one SQL statement as the
    database runs it inside a transaction; `WorkAt` and `HeldAt` say in closed form
    what the transaction has written and locked when it reaches each statement. */
module Persist {
  import opened Wrappers
  import opened Tables

  /** Everything a transaction can wait for. A row lock is named by the UNIQUE key
      of the row, because an upsert of a key waits for the transaction that is
      inserting or has updated that key. */
  datatype Lock =
    | Advisory(hash: int)
    | RowLock(key: Key)

  /** The statement a transaction runs next. The upserts are numbered in order:
      signer, package, baseline version, candidate version, transition,
      environment, methodology. */
  datatype Pc =
    | AtLock | AtFind
    | AtUpsert(k: nat)
    | AtAttestation | AtRun | AtSubmission | AtIdentity | AtFindings
    | AtDuplicateIdentity | AtDuplicateCount
    | AtCommit(duplicate: bool)

  const UPSERTS: nat := 7

  function Rank(pc: Pc): nat {
    match pc
    case AtLock => 0
    case AtFind => 1
    case AtUpsert(k) => if k < UPSERTS then 2 + k else 2 + UPSERTS
    case AtAttestation => 10
    case AtRun => 11
    case AtSubmission => 12
    case AtIdentity => 13
    case AtFindings => 14
    case AtDuplicateIdentity => 15
    case AtDuplicateCount => 16
    case AtCommit(_) => 17
  }

  const COMMIT_RANK: nat := 17

  /** The values one transaction draws from the BIGSERIAL sequences, one for each
      upsert (drawn whether or not the row exists), one for the attestation and one
      for the run. They are opaque: all that matters is that no sequence hands out
      a value twice. */
  datatype Draws = Draws(upserts: seq<nat>, attestation: nat, run: nat) {
    predicate Valid() {
      |upserts| == UPSERTS && upserts[2] != upserts[3]
    }
  }

  /** The private writes of a transaction and the ids its statements returned. */
  datatype Work = Work(ids: seq<nat>, attestationId: nat, runId: nat, delta: Tables)

  const NO_WORK := Work([], 0, 0, EMPTY_TABLES)

  datatype Next = Go(pc: Pc, work: Work) | Fail

  /** A row as the transaction sees it: its own write if it has one, and otherwise the committed row. */
  function Read<K, V>(base: map<K, V>, own: map<K, V>, key: K): Option<V> {
    if key in own then Some(own[key]) else if key in base then Some(base[key]) else None
  }

  /** The row that upsert `k` is about, given the ids of the upserts before it. */
  function KeyAt(s: Submission, ids: seq<nat>, k: nat): Key
    requires k < UPSERTS && |ids| >= k
  {
    if k == 0 then SignerKey(s.keyId)
    else if k == 1 then s.Package()
    else if k == 2 then VersionKey(ids[1], s.From())
    else if k == 3 then VersionKey(ids[1], s.To())
    else if k == 4 then TransitionKey(ids[1], ids[2], ids[3])
    else if k == 5 then s.environment
    else s.methodology
  }

  function PurlAt(s: Submission, k: nat): string {
    if k == 2 then s.subject.baseline.purl else if k == 3 then s.subject.candidate.purl else ""
  }

  /** The row that an upsert leaves: with the id that was there, or else the drawn one. */
  function Upserted(row: Option<Row>, draw: nat, purl: string): Row {
    Row(if row.Some? then row.value.id else draw, purl)
  }

  /** `persist_identity`, given the binding already there: None when that is
      another bundle, and otherwise the rows to write. */
  function BindIdentity(bound: Option<Binding>, attestationId: nat, proof: Option<Binding>): Option<map<nat, Binding>> {
    if proof.None? then Some(map[])
    else if bound.Some? then
      if bound.value.bundleDigest != proof.value.bundleDigest then None else Some(map[])
    else Some(map[attestationId := proof.value])
  }

  predicate Runnable(d: Draws, pc: Pc, w: Work) {
    && (pc.AtUpsert? ==> d.Valid() && pc.k < UPSERTS && |w.ids| == pc.k)
    && (pc.AtAttestation? || pc.AtRun? ==> |w.ids| == UPSERTS)
  }

  /** One statement, reading the committed rows under the transaction's own writes. */
  function Execute(base: Tables, s: Submission, d: Draws, pc: Pc, w: Work): Next
    requires !pc.AtCommit? && Runnable(d, pc, w)
  {
    var own := w.delta;
    var id := w.attestationId;
    match pc
    case AtLock => Go(AtFind, w)
    case AtFind =>
      var row := Read(base.attestations, own.attestations, s.id);
      if row.Some? then Go(AtDuplicateIdentity, w.(attestationId := row.value.id)) else Go(AtUpsert(0), w)
    case AtUpsert(k) =>
      var key := KeyAt(s, w.ids, k);
      var row := Upserted(Read(base.rows, own.rows, key), d.upserts[k], PurlAt(s, k));
      var next := if k + 1 < UPSERTS then AtUpsert(k + 1) else AtAttestation;
      Go(next, w.(ids := w.ids + [row.id], delta := own.(rows := own.rows[key := row])))
    // The three plain inserts fail on a UNIQUE violation.
    case AtAttestation =>
      if Read(base.attestations, own.attestations, s.id).Some? then Fail
      else
        var row := AttestationRow(d.attestation, s.document, w.ids[0]);
        Go(AtRun, w.(attestationId := d.attestation, delta := own.(attestations := own.attestations[s.id := row])))
    case AtRun =>
      if Read(base.runs, own.runs, id).Some? then Fail
      else
        var row := RunRow(d.run, w.ids[4], w.ids[5], w.ids[6], s.facts);
        Go(AtSubmission, w.(runId := d.run, delta := own.(runs := own.runs[id := row])))
    case AtSubmission =>
      if Read(base.submissions, own.submissions, id).Some? then Fail
      else Go(AtIdentity, w.(delta := own.(submissions := own.submissions[id := 1])))
    case AtIdentity =>
      var rows := BindIdentity(Read(base.identities, own.identities, id), id, s.proof);
      if rows.None? then Fail
      else Go(AtFindings, w.(delta := own.(identities := own.identities + rows.value)))
    case AtFindings =>
      Go(AtCommit(false), w.(delta := own.(findings := own.findings + FindingRows(w.runId, s.observed))))
    case AtDuplicateIdentity =>
      var rows := BindIdentity(Read(base.identities, own.identities, id), id, s.proof);
      if rows.None? then Fail
      else Go(AtDuplicateCount, w.(delta := own.(identities := own.identities + rows.value)))
    case AtDuplicateCount =>
      // The UPDATE touches no row, and does not fail, if there is no submission row.
      var row := Read(base.submissions, own.submissions, id);
      if row.None? then Go(AtCommit(true), w)
      else Go(AtCommit(true), w.(delta := own.(submissions := own.submissions[id := row.value + 1])))
  }

  /** The lock the next statement must hold before it runs. */
  function Wanted(hash: string -> int, s: Submission, pc: Pc, ids: seq<nat>): Option<Lock>
    requires pc.AtUpsert? ==> pc.k < UPSERTS && |ids| == pc.k
  {
    match pc
    case AtLock => Some(Advisory(hash(s.id)))
    case AtUpsert(k) => Some(RowLock(KeyAt(s, ids, k)))
    case _ => None
  }

  // ---- The closed form ----

  /** The ids returned by the first `k` upserts, and the rows they leave. */
  datatype Upserts = Upserts(ids: seq<nat>, rows: map<Key, Row>)

  function UpsertsAt(base: map<Key, Row>, s: Submission, d: Draws, k: nat): (u: Upserts)
    requires d.Valid() && k <= UPSERTS
    ensures |u.ids| == k
  {
    if k == 0 then Upserts([], map[])
    else
      var u := UpsertsAt(base, s, d, k - 1);
      var key := KeyAt(s, u.ids, k - 1);
      var row := Upserted(Read(base, u.rows, key), d.upserts[k - 1], PurlAt(s, k - 1));
      Upserts(u.ids + [row.id], u.rows[key := row])
  }

  function ProofRows(attestationId: nat, proof: Option<Binding>): map<nat, Binding> {
    if proof.None? then map[] else map[attestationId := proof.value]
  }

  function UpsertWork(u: Upserts): Work {
    Work(u.ids, 0, 0, EMPTY_TABLES.(rows := u.rows))
  }

  /** The work of a submission with a new id after its upserts, at each later statement. */
  function InsertWork(u: Upserts, s: Submission, d: Draws, pc: Pc): Work
    requires |u.ids| == UPSERTS
    decreases Rank(pc)
  {
    match pc
    case AtRun =>
      var row := AttestationRow(d.attestation, s.document, u.ids[0]);
      Work(u.ids, d.attestation, 0, EMPTY_TABLES.(rows := u.rows, attestations := map[s.id := row]))
    case AtSubmission =>
      var w := InsertWork(u, s, d, AtRun);
      w.(runId := d.run,
         delta := w.delta.(runs := map[d.attestation := RunRow(d.run, u.ids[4], u.ids[5], u.ids[6], s.facts)]))
    case AtIdentity =>
      var w := InsertWork(u, s, d, AtSubmission);
      w.(delta := w.delta.(submissions := map[d.attestation := 1]))
    case AtFindings =>
      var w := InsertWork(u, s, d, AtIdentity);
      w.(delta := w.delta.(identities := ProofRows(d.attestation, s.proof)))
    case AtCommit(_) =>
      var w := InsertWork(u, s, d, AtFindings);
      w.(delta := w.delta.(findings := FindingRows(d.run, s.observed)))
    case _ => UpsertWork(u)
  }

  function AfterInsert(pc: Pc): Pc {
    match pc
    case AtAttestation => AtRun
    case AtRun => AtSubmission
    case AtSubmission => AtIdentity
    case AtIdentity => AtFindings
    case _ => AtCommit(false)
  }

  /** The work of a submission with a new id when it reaches `pc`. */
  function NewWork(base: map<Key, Row>, s: Submission, d: Draws, pc: Pc): Work
    requires d.Valid() && (pc.AtUpsert? ==> pc.k < UPSERTS)
  {
    if pc.AtLock? || pc.AtFind? then NO_WORK
    else if pc.AtUpsert? then UpsertWork(UpsertsAt(base, s, d, pc.k))
    else InsertWork(UpsertsAt(base, s, d, UPSERTS), s, d, pc)
  }

  /** The work of a submission whose id is already stored when it reaches `pc`. */
  function DuplicateWork(base: Tables, s: Submission, pc: Pc): Work
    requires s.id in base.attestations
  {
    var id := base.attestations[s.id].id;
    var found := NO_WORK.(attestationId := id);
    var bound := found.(delta := EMPTY_TABLES.(identities := if id in base.identities then map[] else ProofRows(id,
        s.proof)));
    match pc
    case AtDuplicateIdentity => found
    case AtDuplicateCount => bound
    case AtCommit(_) =>
      if id in base.submissions then bound.(delta := bound.delta.(submissions := map[id := base.submissions[id] + 1]))
      else bound
    case _ => NO_WORK
  }

  /** The stored id is bound to another bundle than the one submitted. */
  predicate Conflict(base: Tables, s: Submission) {
    && s.id in base.attestations
    && s.proof.Some?
    && base.attestations[s.id].id in base.identities
    && base.identities[base.attestations[s.id].id].bundleDigest != s.proof.value.bundleDigest
  }

  /** The statements a submission passes through: which ones depends on whether its id is stored. */
  predicate OnPath(base: Tables, s: Submission, pc: Pc) {
    match pc
    case AtLock => true
    case AtFind => true
    case AtCommit(duplicate) => (duplicate <==> s.id in base.attestations) && !Conflict(base, s)
    case AtDuplicateIdentity => s.id in base.attestations
    case AtDuplicateCount => s.id in base.attestations && !Conflict(base, s)
    case AtUpsert(k) => k < UPSERTS && s.id !in base.attestations
    case _ => s.id !in base.attestations
  }

  function WorkAt(base: Tables, s: Submission, d: Draws, pc: Pc): (w: Work)
    requires d.Valid() && OnPath(base, s, pc)
    ensures Runnable(d, pc, w)
  {
    if s.id in base.attestations then DuplicateWork(base, s, pc) else NewWork(base.rows, s, d, pc)
  }

  /** The new attestation id is not in use, so the plain inserts meet no old row. */
  predicate FreshAttestation(base: Tables, d: Draws) {
    d.attestation !in base.runs && d.attestation !in base.submissions && d.attestation !in base.identities
  }

  lemma UpsertKeepsShape(base: Tables, s: Submission, d: Draws, k: nat)
    requires d.Valid() && k < UPSERTS
    ensures var next := Execute(base, s, d, AtUpsert(k), UpsertWork(UpsertsAt(base.rows, s, d, k)));
      next == Go(if k + 1 < UPSERTS then AtUpsert(k + 1) else AtAttestation,
          UpsertWork(UpsertsAt(base.rows, s, d, k + 1)))
  {
  }

  lemma RunInsertKeepsShape(base: Tables, s: Submission, d: Draws, u: Upserts, pc: Pc)
    requires s.id !in base.attestations && FreshAttestation(base, d)
    requires |u.ids| == UPSERTS
    requires pc.AtAttestation? || pc.AtRun?
    ensures var next := Execute(base, s, d, pc, InsertWork(u, s, d, pc));
      next == Go(AfterInsert(pc), InsertWork(u, s, d, AfterInsert(pc)))
  {
  }

  lemma LaterInsertKeepsShape(base: Tables, s: Submission, d: Draws, u: Upserts, pc: Pc)
    requires s.id !in base.attestations && FreshAttestation(base, d)
    requires |u.ids| == UPSERTS
    requires pc.AtSubmission? || pc.AtIdentity? || pc.AtFindings?
    ensures var next := Execute(base, s, d, pc, InsertWork(u, s, d, pc));
      next == Go(AfterInsert(pc), InsertWork(u, s, d, AfterInsert(pc)))
  {
  }

  lemma InsertKeepsShape(base: Tables, s: Submission, d: Draws, u: Upserts, pc: Pc)
    requires s.id !in base.attestations && FreshAttestation(base, d)
    requires |u.ids| == UPSERTS
    requires pc.AtAttestation? || pc.AtRun? || pc.AtSubmission? || pc.AtIdentity? || pc.AtFindings?
    ensures var next := Execute(base, s, d, pc, InsertWork(u, s, d, pc));
      next == Go(AfterInsert(pc), InsertWork(u, s, d, AfterInsert(pc)))
  {
    if pc.AtAttestation? || pc.AtRun? {
      RunInsertKeepsShape(base, s, d, u, pc);
    } else {
      LaterInsertKeepsShape(base, s, d, u, pc);
    }
  }

  lemma DuplicateKeepsShape(base: Tables, s: Submission, d: Draws, pc: Pc)
    requires s.id in base.attestations && OnPath(base, s, pc)
    requires pc.AtDuplicateIdentity? || pc.AtDuplicateCount?
    ensures var next := Execute(base, s, d, pc, DuplicateWork(base, s, pc));
      if pc == AtDuplicateIdentity && Conflict(base, s) then next == Fail
      else
        next.Go? && Rank(next.pc) > Rank(pc) && OnPath(base, s, next.pc) &&
        next.work == DuplicateWork(base, s, next.pc)
  {
  }

  lemma FindKeepsShape(base: Tables, s: Submission, d: Draws, pc: Pc)
    requires (pc.AtLock? || pc.AtFind?) && d.Valid()
    ensures var next := Execute(base, s, d, pc, WorkAt(base, s, d, pc));
      next.Go? && OnPath(base, s, next.pc) && next.work == WorkAt(base, s, d, next.pc) && Rank(next.pc) > Rank(pc)
  {
  }

  /** Running one statement takes the closed form at `pc` to the closed form at the
      next statement, and the only statement that can fail is the identity check
      of a duplicate. */
  lemma StatementKeepsShape(base: Tables, s: Submission, d: Draws, pc: Pc)
    requires !pc.AtCommit? && d.Valid() && OnPath(base, s, pc) && FreshAttestation(base, d)
    ensures var next := Execute(base, s, d, pc, WorkAt(base, s, d, pc));
      if pc == AtDuplicateIdentity && Conflict(base, s) then next == Fail
      else next.Go? && OnPath(base, s, next.pc) && next.work == WorkAt(base, s, d, next.pc) && Rank(next.pc) > Rank(pc)
  {
    if pc.AtLock? || pc.AtFind? {
      FindKeepsShape(base, s, d, pc);
    } else if s.id in base.attestations {
      DuplicateKeepsShape(base, s, d, pc);
    } else if pc.AtUpsert? {
      UpsertKeepsShape(base, s, d, pc.k);
    } else {
      InsertKeepsShape(base, s, d, UpsertsAt(base.rows, s, d, UPSERTS), pc);
    }
  }
}
