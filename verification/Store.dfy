/** The database as one connection drives it: `persist` and `persist_identity` as
    the sequence of statements they issue, with the commit or rollback at the end. */
module Store {
  import opened Wrappers
  import opened Evidence
  import opened Tables
  import opened Persist
  import opened Log
  import opened Commit

  /** How many tables are upserted into: the sequences behind their BIGSERIAL keys. */
  const SEQUENCES: nat := 6

  datatype PersistError = IdentityProofAlreadyBound | RefusedByDatabase

  /** The values that a transaction with a new id draws from sequences at these positions. */
  function DrawsFrom(nextRow: seq<nat>, nextAttestation: nat, nextRun: nat): (d: Draws)
    requires |nextRow| == SEQUENCES
    ensures d.Valid()
  {
    Draws([nextRow[0], nextRow[1], nextRow[2], nextRow[2] + 1, nextRow[3], nextRow[4], nextRow[5]], nextAttestation,
        nextRun)
  }

  /** How many values the first `k` upserts take from sequence `t`. */
  function Taken(t: nat, k: nat): nat {
    if k == 0 then 0 else Taken(t, k - 1) + if TableAt(k - 1) == t then 1 else 0
  }

  predicate Advanced(start: seq<nat>, now: seq<nat>, k: nat) {
    |start| == |now| == SEQUENCES && forall t | 0 <= t < SEQUENCES :: now[t] == start[t] + Taken(t, k)
  }

  /** Every stored id was handed out by its sequence. */
  ghost predicate Behind(db: Tables, nextRow: seq<nat>, nextAttestation: nat, nextRun: nat) {
    && |nextRow| == SEQUENCES
    && (forall key | key in db.rows :: db.rows[key].id < nextRow[TableOf(key)])
    && (forall id | id in db.attestations :: db.attestations[id].id < nextAttestation)
    && (forall n | n in db.runs :: db.runs[n].id < nextRun)
  }

  lemma BehindIsFresh(db: Tables, nextRow: seq<nat>, nextAttestation: nat, nextRun: nat)
    requires Behind(db, nextRow, nextAttestation, nextRun)
    ensures Fresh(db, DrawsFrom(nextRow, nextAttestation, nextRun))
  {
  }

  lemma DrawnNext(start: seq<nat>, now: seq<nat>, d: Draws, k: nat)
    requires k < UPSERTS && Advanced(start, now, k) && d == DrawsFrom(start, d.attestation, d.run)
    ensures now[TableAt(k)] == d.upserts[k]
    ensures Advanced(start, now[TableAt(k) := now[TableAt(k)] + 1], k + 1)
  {
    var t := TableAt(k);
    assert Taken(t, k) == if k == 3 then 1 else 0;
  }

  /** One upsert as the database does it is one upsert of the closed form. */
  lemma UpsertAdvances(base: map<Key, Row>, start: seq<nat>, s: Submission, d: Draws, ids: seq<nat>, now: seq<nat>)
    requires |ids| < UPSERTS && s.WellTyped() && |start| == SEQUENCES && d == DrawsFrom(start, d.attestation, d.run)
    requires ids == UpsertsAt(base, s, d, |ids|).ids && Advanced(start, now, |ids|)
    ensures var rows, key := RowsAfter(base, s, d, |ids|), KeyAt(s, ids, |ids|);
      var t := TableOf(key);
      var id := if key in rows then rows[key].id else now[t];
      && RowsAfter(base, s, d, |ids| + 1) == rows[key := Row(id, PurlAt(s, |ids|))]
      && UpsertsAt(base, s, d, |ids| + 1).ids == ids + [id]
      && Advanced(start, now[t := now[t] + 1], |ids| + 1)
  {
    UpsertStep(base, s, d, |ids|);
    KeyAtPrefix(s, ids, 0, |ids|);
    DrawnNext(start, now, d, |ids|);
  }

  lemma TakenByAll(start: seq<nat>, now: seq<nat>)
    requires Advanced(start, now, UPSERTS)
    ensures forall t | 0 <= t < SEQUENCES :: now[t] == start[t] + if t == 2 then 2 else 1
  {
    forall t | 0 <= t < SEQUENCES
      ensures Taken(t, UPSERTS) == if t == 2 then 2 else 1
    {
      assert Taken(t, 3) == if t <= 2 then 1 else 0;
      assert Taken(t, 5) == Taken(t, 3) + (if t == 2 then 1 else 0) + (if t == 3 then 1 else 0);
    }
  }

  ghost predicate RowsBehind(rows: map<Key, Row>, now: seq<nat>)
    requires |now| == SEQUENCES
  {
    forall key | key in rows :: rows[key].id < now[TableOf(key)]
  }

  lemma RowsBehindLater(rows: map<Key, Row>, start: seq<nat>, now: seq<nat>)
    requires Advanced(start, now, UPSERTS) && RowsBehind(rows, start)
    ensures RowsBehind(rows, now)
  {
    TakenByAll(start, now);
  }

  lemma DrawIsBehind(start: seq<nat>, now: seq<nat>, d: Draws, k: nat)
    requires k < UPSERTS && Advanced(start, now, UPSERTS) && d == DrawsFrom(start, d.attestation, d.run)
    ensures d.upserts[k] < now[TableAt(k)]
  {
    TakenByAll(start, now);
  }

  lemma PutStaysBehind(rows: map<Key, Row>, now: seq<nat>, key: Key, row: Row)
    requires |now| == SEQUENCES && RowsBehind(rows, now) && row.id < now[TableOf(key)]
    ensures RowsBehind(rows[key := row], now)
  {
  }

  lemma UpsertStaysBehind(base: map<Key, Row>, s: Submission, start: seq<nat>, now: seq<nat>, d: Draws, k: nat)
    requires s.WellTyped() && k < UPSERTS && Advanced(start, now, UPSERTS) &&
        d == DrawsFrom(start, d.attestation, d.run)
    requires RowsBehind(RowsAfter(base, s, d, k), now)
    ensures RowsBehind(RowsAfter(base, s, d, k + 1), now)
  {
    var rows, ids := RowsAfter(base, s, d, k), UpsertsAt(base, s, d, k).ids;
    var key := KeyAt(s, ids, k);
    UpsertStep(base, s, d, k);
    KeyAtPrefix(s, ids, 0, k);
    DrawIsBehind(start, now, d, k);
    PutStaysBehind(rows, now, key, Row(if key in rows then rows[key].id else d.upserts[k], PurlAt(s, k)));
  }

  /** A row written by the upserts keeps an old id or takes one that was drawn. */
  lemma {:induction false} UpsertsStayBehind(base: map<Key, Row>, s: Submission, start: seq<nat>, now: seq<nat>,
      d: Draws, k: nat)
    requires s.WellTyped() && k <= UPSERTS && Advanced(start, now, UPSERTS) &&
        d == DrawsFrom(start, d.attestation, d.run)
    requires RowsBehind(base, start)
    ensures RowsBehind(RowsAfter(base, s, d, k), now)
  {
    if k == 0 {
      RowsBehindLater(base, start, now);
      assert RowsAfter(base, s, d, 0) == base;
    } else {
      UpsertsStayBehind(base, s, start, now, d, k - 1);
      UpsertStaysBehind(base, s, start, now, d, k - 1);
    }
  }

  lemma InsertsStayBehind(attestations: map<string, AttestationRow>, runs: map<nat, RunRow>, id: string,
      row: AttestationRow, n: nat, run: RunRow)
    requires forall x | x in attestations :: attestations[x].id < row.id
    requires forall x | x in runs :: runs[x].id < run.id
    ensures var after := attestations + map[id := row]; forall x | x in after :: after[x].id < row.id + 1
    ensures var after := runs + map[n := run]; forall x | x in after :: after[x].id < run.id + 1
  {
  }

  lemma NewStaysBehind(db: Tables, s: Submission, start: seq<nat>, now: seq<nat>, a: nat, r: nat)
    requires s.WellTyped() && Behind(db, start, a, r) && Advanced(start, now, UPSERTS)
    ensures Behind(NewTables(db, s, DrawsFrom(start, a, r)), now, a + 1, r + 1)
  {
    UpsertsStayBehind(db.rows, s, start, now, DrawsFrom(start, a, r), UPSERTS);
    var u := UpsertsAt(db.rows, s, DrawsFrom(start, a, r), UPSERTS);
    InsertsStayBehind(db.attestations, db.runs, s.id, AttestationRow(a, s.document, u.ids[0]),
                      a, RunRow(r, u.ids[4], u.ids[5], u.ids[6], s.facts));
  }

  lemma StoredHasCount(db: Tables, log: seq<Submission>, id: string)
    requires AllStored(db, log) && id in db.attestations
    ensures db.attestations[id].id in db.submissions
  {
    assert Stored(db, log, id);
  }

  lemma DuplicateAccepted(db: Tables, log: seq<Submission>, s: Submission, start: seq<nat>, a: nat, r: nat)
    requires Represents(db, log) && Behind(db, start, a, r) && s.id in db.attestations
    ensures db.attestations[s.id].id in db.submissions
    ensures !Conflict(db, s) ==>
      var after := Recount(db, s);
      after == Apply(db, s, DrawsFrom(start, a, r)) && Represents(after, log + [s]) && Behind(after, start, a, r)
  {
    StoredHasCount(db, log, s.id);
    if !Conflict(db, s) {
      ApplyDuplicate(db, s, DrawsFrom(start, a, r));
      DuplicateCommit(db, log, s, DrawsFrom(start, a, r));
    }
  }

  lemma StillBehind(db: Tables, start: seq<nat>, now: seq<nat>, a: nat, r: nat)
    requires Behind(db, start, a, r) && Advanced(start, now, UPSERTS)
    ensures Behind(db, now, a + 1, r + 1)
  {
    TakenByAll(start, now);
  }

  lemma NextIsUnused(db: Tables, log: seq<Submission>, start: seq<nat>, a: nat, r: nat)
    requires Represents(db, log) && Behind(db, start, a, r)
    ensures a !in db.runs && a !in db.submissions && a !in db.identities
  {
    BehindIsFresh(db, start, a, r);
    FreshMeetsNothing(db, log, DrawsFrom(start, a, r));
  }

  lemma NewAccepted(db: Tables, log: seq<Submission>, s: Submission, start: seq<nat>, now: seq<nat>, a: nat, r: nat)
    requires Represents(db, log) && Behind(db, start, a, r) && Admissible(s) && s.id !in db.attestations
    requires Advanced(start, now, UPSERTS)
    ensures var after := NewTables(db, s, DrawsFrom(start, a, r));
      after == Apply(db, s, DrawsFrom(start, a, r)) && Represents(after, log + [s]) && Behind(after, now, a + 1, r + 1)
  {
    BehindIsFresh(db, start, a, r);
    ApplyNew(db, s, DrawsFrom(start, a, r));
    NewCommit(db, log, s, DrawsFrom(start, a, r));
    NewStaysBehind(db, s, start, now, a, r);
  }

  class Database {
    var rows: map<Key, Row>
    var attestations: map<string, AttestationRow>
    var submissions: map<nat, nat>
    var runs: map<nat, RunRow>
    var identities: map<nat, Binding>
    var findings: seq<FindingRow>
    // What PostgreSQL itself cannot store, such as a NUL in a text or an oversized key.
    const refuses: (Tables, Submission) -> bool
    // The next value of each sequence; a rollback does not take a value back.
    var nextRow: seq<nat>
    var nextAttestation: nat
    var nextRun: nat
    // The submissions accepted so far.
    ghost var log: seq<Submission>

    constructor (refuses: (Tables, Submission) -> bool)
      ensures this.refuses == refuses
      ensures Valid() && log == [] && Contents() == EMPTY_TABLES
    {
      this.refuses := refuses;
      rows, attestations, submissions, runs, identities, findings := map[], map[], map[], map[], map[], [];
      nextRow, nextAttestation, nextRun := seq(SEQUENCES, _ => 1), 1, 1;
      log := [];
    }

    function Contents(): Tables
      reads this
    {
      Tables(rows, attestations, submissions, runs, identities, findings)
    }

    ghost predicate Valid()
      reads this
    {
      Represents(Contents(), log) && Behind(Contents(), nextRow, nextAttestation, nextRun)
    }

    /** The values that the next transaction with a new id will draw. */
    function NextDraws(): (d: Draws)
      reads this
      requires |nextRow| == SEQUENCES
    {
      DrawsFrom(nextRow, nextAttestation, nextRun)
    }

    /** Inserts a row, or updates the one that is there, and returns its id. The ghost parameters
        place it among the upserts of a submission. */
    method Upsert(key: Key, purl: string, ghost base: map<Key, Row>, ghost start: seq<nat>, ghost s: Submission,
        ghost d: Draws, ghost ids: seq<nat>)
      returns (id: nat)
      requires |ids| < UPSERTS && s.WellTyped() && |start| == SEQUENCES && d == DrawsFrom(start, d.attestation, d.run)
      requires key == KeyAt(s, ids, |ids|) && purl == PurlAt(s, |ids|)
      requires rows == RowsAfter(base, s, d, |ids|) && ids == UpsertsAt(base, s, d, |ids|).ids
      requires Advanced(start, nextRow, |ids|)
      modifies this`rows, this`nextRow
      ensures old(rows)[key := Row(id, purl)] == rows == RowsAfter(base, s, d, |ids| + 1)
      ensures ids + [id] == UpsertsAt(base, s, d, |ids| + 1).ids
      ensures Advanced(start, nextRow, |ids| + 1)
    {
      UpsertAdvances(base, start, s, d, ids, nextRow);
      var t := TableOf(key);
      id := nextRow[t];
      nextRow := nextRow[t := id + 1];
      if key in rows {
        id := rows[key].id;
      }
      rows := rows[key := Row(id, purl)];
    }

    /** False when the attestation is bound to another bundle. */
    method PersistIdentity(attestationId: nat, proof: Binding) returns (ok: bool)
      modifies this`identities
      ensures ok <==> BindIdentity(Read(old(identities), map[], attestationId), attestationId, Some(proof)).Some?
      ensures ok ==>
        identities ==
        if attestationId in old(identities) then old(identities)
        else old(identities) + ProofRows(attestationId, Some(proof))
      ensures !ok ==> identities == old(identities)
    {
      if attestationId in identities {
        var existing := identities[attestationId].bundleDigest;
        return existing == proof.bundleDigest;
      }
      identities := identities + map[attestationId := proof];
      ok := true;
    }

    method Rollback(saved: Tables)
      modifies this`rows, this`attestations, this`submissions, this`runs, this`identities, this`findings
      ensures Contents() == saved
    {
      rows, attestations, submissions := saved.rows, saved.attestations, saved.submissions;
      runs, identities, findings := saved.runs, saved.identities, saved.findings;
    }

    /** The two versions and the transition between them, after the signer and the package. */
    method UpsertTransition(s: Submission, signer: nat, package: nat, ghost base: map<Key, Row>, ghost start: seq<nat>,
        ghost d: Draws)
      returns (ids: seq<nat>)
      requires s.WellTyped() && |start| == SEQUENCES && d == DrawsFrom(start, d.attestation, d.run)
      requires rows == RowsAfter(base, s, d, 2) && [signer, package] == UpsertsAt(base, s, d, 2).ids
      requires Advanced(start, nextRow, 2)
      modifies this`rows, this`nextRow
      ensures ids == UpsertsAt(base, s, d, 5).ids && rows == RowsAfter(base, s, d, 5) && Advanced(start, nextRow, 5)
    {
      ids := [signer, package];
      var from := Upsert(VersionKey(package, s.From()), s.subject.baseline.purl, base, start, s, d, ids);
      var to := Upsert(VersionKey(package, s.To()), s.subject.candidate.purl, base, start, s, d, ids + [from]);
      var transition := Upsert(TransitionKey(package, from, to), "", base, start, s, d, ids + [from] + [to]);
      ids := ids + [from] + [to] + [transition];
    }

    /** The environment and the methodology, after the transition. */
    method UpsertContext(s: Submission, done: seq<nat>, ghost base: map<Key, Row>, ghost start: seq<nat>,
        ghost d: Draws)
      returns (ids: seq<nat>)
      requires s.WellTyped() && |start| == SEQUENCES && d == DrawsFrom(start, d.attestation, d.run)
      requires rows == RowsAfter(base, s, d, 5) && done == UpsertsAt(base, s, d, 5).ids && Advanced(start, nextRow, 5)
      modifies this`rows, this`nextRow
      ensures ids == UpsertsAt(base, s, d, UPSERTS).ids && rows == RowsAfter(base, s, d, UPSERTS)
      ensures Advanced(start, nextRow, UPSERTS)
    {
      var environment := Upsert(s.environment, "", base, start, s, d, done);
      var methodology := Upsert(s.methodology, "", base, start, s, d, done + [environment]);
      ids := done + [environment] + [methodology];
    }

    /** The seven upserts of a new id, in order. */
    method UpsertRows(s: Submission) returns (ids: seq<nat>)
      requires |nextRow| == SEQUENCES && s.WellTyped()
      modifies this`rows, this`nextRow
      ensures ids == UpsertsAt(old(rows), s, old(NextDraws()), UPSERTS).ids
      ensures rows == RowsAfter(old(rows), s, old(NextDraws()), UPSERTS)
      ensures Advanced(old(nextRow), nextRow, UPSERTS)
    {
      ghost var base, start, d := rows, nextRow, NextDraws();
      var signer := Upsert(SignerKey(s.keyId), "", base, start, s, d, []);
      var package := Upsert(s.Package(), "", base, start, s, d, [] + [signer]);
      ids := UpsertTransition(s, signer, package, base, start, d);
      ids := UpsertContext(s, ids, base, start, d);
    }

    method InsertFindings(runId: nat, o: Observed)
      modifies this`findings
      ensures findings == old(findings) + FindingRows(runId, o)
    {
      ghost var before := findings;
      for i := 0 to |o.files|
        invariant findings == before + FileRows(runId, o.files[..i])
      {
        findings := findings + [FindingRow(runId, FilesystemPath(o.files[i].path, o.files[i].kind))];
      }
      assert o.files[..|o.files|] == o.files;
      before := findings;
      for i := 0 to |o.processes|
        invariant findings == before + ProcessRows(runId, o.processes[..i])
      {
        findings := findings + [FindingRow(runId, ProcessPattern(o.processes[i]))];
      }
      assert o.processes[..|o.processes|] == o.processes;
      before := findings;
      for i := 0 to |o.policy.findings|
        invariant findings == before + PolicyRows(runId, o.policy)[..i]
      {
        findings := findings + [FindingRow(runId, PolicyFinding(o.policy.outcome, o.policy.findings[i]))];
      }
      InsertSecurity(runId, o.sources);
    }

    method InsertSecurity(runId: nat, sources: seq<PublicIntelligence>)
      modifies this`findings
      ensures findings == old(findings) + SecurityRows(runId, sources)
    {
      for i := 0 to |sources|
        invariant findings == old(findings) + SecurityRows(runId, sources[..i])
      {
        ghost var before := findings;
        var source := sources[i];
        for j := 0 to |source.findings|
          invariant findings == before + SourceRows(runId, source)[..j]
        {
          findings := findings + [FindingRow(runId,
              SecurityFinding(source.provider, source.status, source.findings[j]))];
        }
        assert SourceRows(runId, source)[..|source.findings|] == SourceRows(runId, source);
        assert sources[..i + 1][..i] == sources[..i];
      }
      assert sources[..|sources|] == sources;
    }

    /** The branch of an id that is stored: true when it can commit. */
    method PersistDuplicate(s: Submission) returns (ok: bool)
      requires s.id in attestations && attestations[s.id].id in submissions
      modifies this`submissions, this`identities
      ensures ok <==> !Conflict(old(Contents()), s)
      ensures ok ==> Contents() == Recount(old(Contents()), s)
    {
      var a := attestations[s.id].id;
      if s.proof.Some? {
        ok := PersistIdentity(a, s.proof.value);
        if !ok {
          return;
        }
      }
      submissions := submissions[a := submissions[a] + 1];
      ok := true;
    }

    /** The attestation, its run and its submission row; none meets a key that is in use. */
    method InsertRows(s: Submission, ids: seq<nat>)
      requires |ids| == UPSERTS && s.id !in attestations && nextAttestation !in runs && nextAttestation !in submissions
      modifies this`attestations, this`submissions, this`runs, this`nextAttestation, this`nextRun
      ensures attestations == old(attestations) + map[s.id := AttestationRow(old(nextAttestation), s.document, ids[0])]
      ensures submissions == old(submissions) + map[old(nextAttestation) := 1]
      ensures runs == old(runs) + map[old(nextAttestation) := RunRow(old(nextRun), ids[4], ids[5], ids[6], s.facts)]
      ensures nextAttestation == old(nextAttestation) + 1 && nextRun == old(nextRun) + 1
    {
      var a := nextAttestation;
      nextAttestation := a + 1;
      attestations := attestations + map[s.id := AttestationRow(a, s.document, ids[0])];
      var run := nextRun;
      nextRun := run + 1;
      runs := runs + map[a := RunRow(run, ids[4], ids[5], ids[6], s.facts)];
      submissions := submissions + map[a := 1];
    }

    /** The plain inserts of a new id, none of which meets a key that is in use. */
    method InsertRun(s: Submission, ids: seq<nat>)
      requires |ids| == UPSERTS && s.id !in attestations
      requires nextAttestation !in runs && nextAttestation !in submissions && nextAttestation !in identities
      modifies this`attestations, this`submissions, this`runs, this`identities, this`findings, this`nextAttestation,
          this`nextRun
      ensures attestations == old(attestations) + map[s.id := AttestationRow(old(nextAttestation), s.document, ids[0])]
      ensures submissions == old(submissions) + map[old(nextAttestation) := 1]
      ensures runs == old(runs) + map[old(nextAttestation) := RunRow(old(nextRun), ids[4], ids[5], ids[6], s.facts)]
      ensures identities == old(identities) + ProofRows(old(nextAttestation), s.proof)
      ensures findings == old(findings) + FindingRows(old(nextRun), s.observed)
      ensures nextAttestation == old(nextAttestation) + 1 && nextRun == old(nextRun) + 1
    {
      var a, run := nextAttestation, nextRun;
      InsertRows(s, ids);
      if s.proof.Some? {
        var _ := PersistIdentity(a, s.proof.value);
      }
      InsertFindings(run, s.observed);
    }

    /** The branch of a new id. */
    method PersistNew(s: Submission)
      requires |nextRow| == SEQUENCES && s.WellTyped() && s.id !in attestations
      requires nextAttestation !in runs && nextAttestation !in submissions && nextAttestation !in identities
      modifies this`rows, this`nextRow, this`attestations, this`submissions, this`runs, this`identities, this`findings,
               this`nextAttestation, this`nextRun
      ensures Contents() == NewTables(old(Contents()), s, old(NextDraws()))
      ensures Advanced(old(nextRow), nextRow, UPSERTS)
      ensures nextAttestation == old(nextAttestation) + 1 && nextRun == old(nextRun) + 1
    {
      var ids := UpsertRows(s);
      InsertRun(s, ids);
    }

    /** What a finished `persist` leaves: an error and the tables as they were, or
        the reply and the tables with the submission applied. */
    twostate predicate Persisted(s: Submission, new r: Result<(string, bool), PersistError>)
      reads this
      requires |old(nextRow)| == SEQUENCES
    {
      var db := old(Contents());
      if Conflict(db, s) || refuses(db, s) then
        && r == Err(if Conflict(db, s) then IdentityProofAlreadyBound else RefusedByDatabase)
        && Contents() == db && log == old(log)
      else
        && r == Ok((s.id, s.id in db.attestations))
        && Contents() == Apply(db, s, old(NextDraws())) && log == old(log) + [s]
    }

    /** The id and whether it was a duplicate, or the error that rolled everything back. */
    method Persist(s: Submission) returns (r: Result<(string, bool), PersistError>)
      requires Valid() && Admissible(s)
      modifies this
      ensures Valid() && Persisted(s, r)
    {
      if s.id in attestations {
        r := PersistStored(s);
      } else {
        r := PersistUnseen(s);
      }
    }

    method PersistStored(s: Submission) returns (r: Result<(string, bool), PersistError>)
      requires Valid() && s.id in attestations
      modifies this`rows, this`attestations, this`submissions, this`runs, this`identities, this`findings, this`log
      ensures Valid() && Persisted(s, r)
    {
      ghost var saved := Contents();
      assert saved.attestations[s.id].id in saved.submissions by {
        StoredHasCount(saved, log, s.id);
      }
      var error := CountOrRollBack(s);
      if error.None? {
        LogDuplicate(s, saved);
        r := Ok((s.id, true));
      } else {
        r := Err(error.value);
      }
    }

    ghost method LogDuplicate(s: Submission, saved: Tables)
      requires Represents(saved, log) && Behind(saved, nextRow, nextAttestation, nextRun)
      requires s.id in saved.attestations && saved.attestations[s.id].id in saved.submissions && !Conflict(saved, s)
      requires Contents() == Recount(saved, s)
      modifies this`log
      ensures Valid() && log == old(log) + [s] && Contents() == Apply(saved, s, NextDraws())
    {
      DuplicateAccepted(saved, log, s, nextRow, nextAttestation, nextRun);
      log := log + [s];
    }

    method CountOrRollBack(s: Submission) returns (error: Option<PersistError>)
      requires s.id in attestations && attestations[s.id].id in submissions
      modifies this`rows, this`attestations, this`submissions, this`runs, this`identities, this`findings
      ensures error ==
        if Conflict(old(Contents()), s) then Some(IdentityProofAlreadyBound)
        else if refuses(old(Contents()), s) then Some(RefusedByDatabase)
        else None
      ensures error.Some? ==> Contents() == old(Contents())
      ensures error.None? ==> Contents() == Recount(old(Contents()), s)
    {
      var saved := Contents();
      var ok := PersistDuplicate(s);
      if !ok {
        Rollback(saved);
        return Some(IdentityProofAlreadyBound);
      }
      if refuses(saved, s) {
        Rollback(saved);
        return Some(RefusedByDatabase);
      }
      error := None;
    }

    method PersistUnseen(s: Submission) returns (r: Result<(string, bool), PersistError>)
      requires Valid() && Admissible(s) && s.id !in attestations
      modifies this
      ensures Valid() && Persisted(s, r)
    {
      ghost var saved, start, a, run := Contents(), nextRow, nextAttestation, nextRun;
      NextIsUnused(saved, log, start, a, run);
      var ok := InsertOrRollBack(s);
      if !ok {
        StillBehind(saved, start, nextRow, a, run);
        return Err(RefusedByDatabase);
      }
      NewAccepted(saved, log, s, start, nextRow, a, run);
      log := log + [s];
      r := Ok((s.id, false));
    }

    /** Whichever statement is refused, the values drawn from the sequences are gone. */
    method InsertOrRollBack(s: Submission) returns (ok: bool)
      requires |nextRow| == SEQUENCES && s.WellTyped() && s.id !in attestations
      requires nextAttestation !in runs && nextAttestation !in submissions && nextAttestation !in identities
      modifies this`rows, this`nextRow, this`attestations, this`submissions, this`runs, this`identities, this`findings,
               this`nextAttestation, this`nextRun
      ensures ok <==> !refuses(old(Contents()), s)
      ensures Contents() == if ok then NewTables(old(Contents()), s, old(NextDraws())) else old(Contents())
      ensures Advanced(old(nextRow), nextRow, UPSERTS)
      ensures nextAttestation == old(nextAttestation) + 1 && nextRun == old(nextRun) + 1
    {
      var saved := Contents();
      PersistNew(s);
      ok := !refuses(saved, s);
      if !ok {
        Rollback(saved);
      }
    }
  }
}
