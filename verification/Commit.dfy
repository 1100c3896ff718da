/** A committed `persist` appends its submission to the log that the tables represent. */
module Commit {
  import opened Tables
  import opened Persist
  import opened Log

  /** The tables after one `persist` that runs alone and commits. */
  function Apply(db: Tables, s: Submission, d: Draws): Tables
    requires d.Valid() && !Conflict(db, s)
  {
    Overlay(db, WorkAt(db, s, d, AtCommit(s.id in db.attestations)).delta)
  }

  /** The same, for a new id, table by table. */
  function NewTables(db: Tables, s: Submission, d: Draws): Tables
    requires d.Valid()
  {
    var u := UpsertsAt(db.rows, s, d, UPSERTS);
    Tables(
      db.rows + u.rows,
      db.attestations + map[s.id := AttestationRow(d.attestation, s.document, u.ids[0])],
      db.submissions + map[d.attestation := 1],
      db.runs + map[d.attestation := RunRow(d.run, u.ids[4], u.ids[5], u.ids[6], s.facts)],
      db.identities + ProofRows(d.attestation, s.proof),
      db.findings + FindingRows(d.run, s.observed))
  }

  lemma InsertWorkTables(u: Upserts, s: Submission, d: Draws)
    requires |u.ids| == UPSERTS
    ensures InsertWork(u, s, d, AtCommit(false)).delta == Tables(
      u.rows,
      map[s.id := AttestationRow(d.attestation, s.document, u.ids[0])],
      map[d.attestation := 1],
      map[d.attestation := RunRow(d.run, u.ids[4], u.ids[5], u.ids[6], s.facts)],
      ProofRows(d.attestation, s.proof),
      FindingRows(d.run, s.observed))
  {
    var run := InsertWork(u, s, d, AtRun);
    var identity := InsertWork(u, s, d, AtIdentity);
    assert identity.delta == run.delta.(
      submissions := map[d.attestation := 1],
      runs := map[d.attestation := RunRow(d.run, u.ids[4], u.ids[5], u.ids[6], s.facts)]);
  }

  lemma ApplyNew(db: Tables, s: Submission, d: Draws)
    requires d.Valid() && s.id !in db.attestations
    ensures Apply(db, s, d) == NewTables(db, s, d)
  {
    InsertWorkTables(UpsertsAt(db.rows, s, d, UPSERTS), s, d);
  }

  /** The tables after a stored id is submitted again. */
  function Recount(db: Tables, s: Submission): Tables
    requires s.id in db.attestations && db.attestations[s.id].id in db.submissions
  {
    var a := db.attestations[s.id].id;
    db.(submissions := db.submissions[a := db.submissions[a] + 1],
        identities := if a in db.identities then db.identities else db.identities + ProofRows(a, s.proof))
  }

  lemma ApplyDuplicate(db: Tables, s: Submission, d: Draws)
    requires d.Valid() && s.id in db.attestations && db.attestations[s.id].id in db.submissions
    requires !Conflict(db, s)
    ensures Apply(db, s, d) == Recount(db, s)
  {
  }

  // ---- A new id ----

  /** What the proof needs of the tables after a commit of a new id. */
  ghost predicate NewCommitted(db: Tables, after: Tables, s: Submission, d: Draws)
  {
    && Extends(db.rows, after.rows)
    && Linked(after.rows, s)
    && after.attestations == db.attestations +
        map[s.id := AttestationRow(d.attestation, s.document, after.rows[SignerKey(s.keyId)].id)]
    && after.submissions == db.submissions + map[d.attestation := 1]
    && after.runs == db.runs + map[d.attestation := RunOf(after.rows, s, d.run)]
    && after.identities == db.identities + ProofRows(d.attestation, s.proof)
    && after.findings == db.findings + FindingRows(d.run, s.observed)
  }

  /** Fresh draws meet no stored row, so the plain inserts cannot fail and no old
      finding belongs to the new run. */
  lemma FreshMeetsNothing(db: Tables, log: seq<Submission>, d: Draws)
    requires Represents(db, log) && Fresh(db, d)
    ensures FreshAttestation(db, d)
    ensures forall i | 0 <= i < |db.findings| :: db.findings[i].runId != d.run
  {
    forall n | n in db.submissions || n in db.runs || n in db.identities
      ensures n != d.attestation
    {
      assert Owned(db, n);
    }
    forall i | 0 <= i < |db.findings|
      ensures db.findings[i].runId != d.run
    {
      assert RunExists(db, db.findings[i].runId);
    }
  }

  lemma NewIsCommitted(db: Tables, s: Submission, d: Draws)
    requires d.Valid() && Admissible(s)
    requires IdsUnique(db.rows) && Pending(db.rows, d, 0) && PurlsSpelled(db.rows)
    ensures NewCommitted(db, NewTables(db, s, d), s, d)
  {
    UpsertsLink(db.rows, s, d);
  }

  lemma NewRowsAreSound(db: Tables, s: Submission, d: Draws)
    requires d.Valid() && Admissible(s)
    requires IdsUnique(db.rows) && Pending(db.rows, d, 0) && PurlsSpelled(db.rows)
    ensures var rows := NewTables(db, s, d).rows;
      IdsUnique(rows) && PurlsSpelled(rows) && Linked(rows, s) &&
      forall key | key in rows :: key in db.rows || Mentions(rows, s, key)
  {
    UpsertsLink(db.rows, s, d);
  }

  lemma OldIdStaysStored(db: Tables, after: Tables, log: seq<Submission>, s: Submission, d: Draws, id: string)
    requires id in db.attestations && Seen(log, id) && Stored(db, log, id) && id != s.id
    requires db.attestations[id].id != d.attestation && db.runs[db.attestations[id].id].id != d.run
    requires forall i | 0 <= i < |db.findings| :: db.findings[i].runId != d.run
    requires NewCommitted(db, after, s, d)
    ensures Seen(log + [s], id) && Stored(after, log + [s], id)
  {
    Append(log, s, id);
    LinkedExtends(db.rows, after.rows, First(log, id));
    AppendFindings(db.findings, d.run, s.observed, db.runs[db.attestations[id].id].id);
  }

  /** The rows of a new id are those that the log asks for. */
  lemma NewRowsAreStored(db: Tables, after: Tables, log: seq<Submission>, s: Submission, d: Draws)
    requires NewCommitted(db, after, s, d) && d.attestation !in db.identities
    requires Seen(log, s.id) && First(log, s.id) == s && Count(log, s.id) == 1 && Bound(log, s.id) == s.proof
    requires FindingsOf(after.findings, d.run) == FindingRows(d.run, s.observed)
    ensures Stored(after, log, s.id)
  {
  }

  lemma NewIdIsStored(db: Tables, after: Tables, log: seq<Submission>, s: Submission, d: Draws)
    requires !Seen(log, s.id) && d.attestation !in db.identities
    requires forall i | 0 <= i < |db.findings| :: db.findings[i].runId != d.run
    requires NewCommitted(db, after, s, d)
    ensures Seen(log + [s], s.id) && Stored(after, log + [s], s.id)
  {
    Append(log, s, s.id);
    UnseenIsEmpty(log, s.id);
    AppendFindings(db.findings, d.run, s.observed, d.run);
    NewRowsAreStored(db, after, log + [s], s, d);
  }

  lemma NewCommitStoresOne(db: Tables, after: Tables, log: seq<Submission>, s: Submission, d: Draws, id: string)
    requires !Seen(log, s.id) && (id in db.attestations <==> Seen(log, id)) && (Seen(log, id) ==> Stored(db, log, id))
    requires id in db.attestations ==>
      db.attestations[id].id != d.attestation && db.runs[db.attestations[id].id].id != d.run
    requires d.attestation !in db.identities
    requires forall i | 0 <= i < |db.findings| :: db.findings[i].runId != d.run
    requires NewCommitted(db, after, s, d)
    ensures id in after.attestations <==> Seen(log + [s], id)
    ensures id in after.attestations ==> Stored(after, log + [s], id)
  {
    Append(log, s, id);
    if id == s.id {
      NewIdIsStored(db, after, log, s, d);
    } else if id in db.attestations {
      OldIdStaysStored(db, after, log, s, d, id);
    }
  }

  lemma NewCommitStores(db: Tables, after: Tables, log: seq<Submission>, s: Submission, d: Draws)
    requires AllStored(db, log) && Fresh(db, d) && s.id !in db.attestations
    requires d.attestation !in db.identities
    requires forall i | 0 <= i < |db.findings| :: db.findings[i].runId != d.run
    requires NewCommitted(db, after, s, d)
    ensures AllStored(after, log + [s])
  {
    forall id
      ensures id in after.attestations <==> Seen(log + [s], id)
      ensures id in after.attestations ==> Stored(after, log + [s], id)
    {
      NewCommitStoresOne(db, after, log, s, d, id);
    }
  }

  lemma NewCommitBacks(db: Tables, after: Tables, log: seq<Submission>, s: Submission, d: Draws, key: Key)
    requires key in db.rows ==> Backed(db, log, key)
    requires s.id !in db.attestations && !Seen(log, s.id) && NewCommitted(db, after, s, d)
    requires key in after.rows && (key in db.rows || Mentions(after.rows, s, key))
    ensures Backed(after, log + [s], key)
  {
    if key in db.rows {
      var id :| id in db.attestations && Seen(log, id) && Linked(db.rows, First(log, id)) &&
          Mentions(db.rows, First(log, id), key);
      Append(log, s, id);
      LinkedExtends(db.rows, after.rows, First(log, id));
      assert id in after.attestations;
    } else {
      Append(log, s, s.id);
      assert s.id in after.attestations;
    }
  }

  lemma PutAttestation(before: map<string, AttestationRow>, id: string, row: AttestationRow)
    requires forall x, y | x in before && y in before && before[x].id == before[y].id :: x == y
    requires forall x | x in before :: before[x].id != row.id
    ensures var rows := before + map[id := row];
      forall x, y | x in rows && y in rows && rows[x].id == rows[y].id :: x == y
  {
  }

  lemma NewCommitIsUnique(db: Tables, after: Tables, s: Submission, d: Draws)
    requires AttestationIdsUnique(db) && Fresh(db, d) && s.id !in db.attestations && NewCommitted(db, after, s, d)
    ensures AttestationIdsUnique(after)
  {
    PutAttestation(db.attestations, s.id, AttestationRow(d.attestation, s.document, after.rows[SignerKey(s.keyId)].id));
  }

  lemma NewCommitOwns(db: Tables, after: Tables, s: Submission, d: Draws)
    requires AllOwned(db) && s.id !in db.attestations && NewCommitted(db, after, s, d)
    ensures AllOwned(after)
  {
    forall n | n in after.submissions || n in after.runs || n in after.identities
      ensures Owned(after, n)
    {
      if n == d.attestation {
        assert after.attestations[s.id].id == n;
      } else {
        assert Owned(db, n);
        var id :| id in db.attestations && db.attestations[id].id == n;
        assert after.attestations[id].id == n;
      }
    }
  }

  lemma PutRun(before: map<nat, RunRow>, n: nat, row: RunRow)
    requires forall x, y | x in before && y in before && before[x].id == before[y].id :: x == y
    requires forall x | x in before :: before[x].id != row.id
    ensures var rows := before + map[n := row];
      forall x, y | x in rows && y in rows && rows[x].id == rows[y].id :: x == y
  {
  }

  lemma NewCommitRuns(db: Tables, after: Tables, s: Submission, d: Draws)
    requires RunIdsUnique(db) && Fresh(db, d) && d.attestation !in db.runs && NewCommitted(db, after, s, d)
    ensures RunIdsUnique(after)
  {
    PutRun(db.runs, d.attestation, RunOf(after.rows, s, d.run));
  }

  lemma RunStaysThere(db: Tables, after: Tables, runId: nat)
    requires RunExists(db, runId) && forall n | n in db.runs :: n in after.runs && after.runs[n] == db.runs[n]
    ensures RunExists(after, runId)
  {
    var n :| n in db.runs && db.runs[n].id == runId;
    assert n in after.runs;
  }

  lemma NewCommitFindings(db: Tables, after: Tables, s: Submission, d: Draws)
    requires d.attestation !in db.runs && NewCommitted(db, after, s, d)
    requires FindingsOwned(db)
    ensures FindingsOwned(after)
  {
    SecurityRowsOfRun(d.run, s.observed.sources);
    assert d.attestation in after.runs && RunExists(after, d.run);
    forall i | 0 <= i < |after.findings|
      ensures RunExists(after, after.findings[i].runId)
    {
      if i < |db.findings| {
        RunStaysThere(db, after, db.findings[i].runId);
      } else {
        assert after.findings[i] == FindingRows(d.run, s.observed)[i - |db.findings|];
      }
    }
  }

  lemma NewCommitBacksAll(db: Tables, after: Tables, log: seq<Submission>, s: Submission, d: Draws)
    requires AllBacked(db, log) && s.id !in db.attestations && !Seen(log, s.id)
    requires NewCommitted(db, after, s, d)
    requires forall key | key in after.rows :: key in db.rows || Mentions(after.rows, s, key)
    ensures AllBacked(after, log + [s])
  {
    forall key | key in after.rows
      ensures Backed(after, log + [s], key)
    {
      NewCommitBacks(db, after, log, s, d, key);
    }
  }

  lemma NewCommit(db: Tables, log: seq<Submission>, s: Submission, d: Draws)
    requires Represents(db, log) && Fresh(db, d) && Admissible(s) && s.id !in db.attestations
    ensures Represents(Apply(db, s, d), log + [s])
  {
    ApplyNew(db, s, d);
    NewIsCommitted(db, s, d);
    NewRowsAreSound(db, s, d);
    FreshMeetsNothing(db, log, d);
    var after := NewTables(db, s, d);
    NewCommitStores(db, after, log, s, d);
    NewCommitIsUnique(db, after, s, d);
    NewCommitOwns(db, after, s, d);
    NewCommitRuns(db, after, s, d);
    NewCommitFindings(db, after, s, d);
    NewCommitBacksAll(db, after, log, s, d);
  }

  // ---- An id that is stored ----

  lemma DuplicateStays(db: Tables, after: Tables, log: seq<Submission>, s: Submission, id: string)
    requires s.id in db.attestations && !Conflict(db, s)
    requires AttestationIdsUnique(db)
    requires id in db.attestations && Seen(log, id) && Stored(db, log, id)
    requires db.attestations[s.id].id in db.submissions && after == Recount(db, s)
    ensures Seen(log + [s], id) && Stored(after, log + [s], id)
  {
    Append(log, s, id);
  }

  lemma DuplicateStaysAll(db: Tables, after: Tables, log: seq<Submission>, s: Submission)
    requires s.id in db.attestations && !Conflict(db, s)
    requires AttestationIdsUnique(db) && AllStored(db, log)
    requires db.attestations[s.id].id in db.submissions && after == Recount(db, s)
    ensures AllStored(after, log + [s])
  {
    forall id
      ensures id in after.attestations <==> Seen(log + [s], id)
      ensures id in after.attestations ==> Stored(after, log + [s], id)
    {
      if id in db.attestations {
        DuplicateStays(db, after, log, s, id);
      } else {
        Append(log, s, id);
      }
    }
  }

  lemma DuplicateCommit(db: Tables, log: seq<Submission>, s: Submission, d: Draws)
    requires Represents(db, log) && d.Valid() && s.id in db.attestations && !Conflict(db, s)
    ensures Represents(Apply(db, s, d), log + [s])
  {
    assert Stored(db, log, s.id);
    ApplyDuplicate(db, s, d);
    var after := Apply(db, s, d);
    DuplicateStaysAll(db, after, log, s);
    DuplicateOwns(db, after, s);
    DuplicateBacks(db, after, log, s);
  }

  lemma DuplicateOwns(db: Tables, after: Tables, s: Submission)
    requires s.id in db.attestations && AllOwned(db) && FindingsOwned(db)
    requires after.attestations == db.attestations && after.runs == db.runs && after.findings == db.findings
    requires var a := db.attestations[s.id].id;
      && (forall n | n in after.submissions || n in after.identities ::
            n in db.submissions || n in db.identities || n == a)
    ensures AllOwned(after) && FindingsOwned(after)
  {
    forall n | n in after.submissions || n in after.runs || n in after.identities
      ensures Owned(after, n)
    {
      if n == db.attestations[s.id].id {
        assert after.attestations[s.id].id == n;
      } else {
        assert Owned(db, n);
        var id :| id in db.attestations && db.attestations[id].id == n;
        assert after.attestations[id].id == n;
      }
    }
    forall i | 0 <= i < |after.findings|
      ensures RunExists(after, after.findings[i].runId)
    {
      assert RunExists(db, db.findings[i].runId);
    }
  }

  lemma DuplicateBacksOne(db: Tables, after: Tables, log: seq<Submission>, s: Submission, key: Key)
    requires Backed(db, log, key) && after.attestations == db.attestations && after.rows == db.rows
    ensures Backed(after, log + [s], key)
  {
    var id :| id in db.attestations && Seen(log, id) && Linked(db.rows, First(log, id)) &&
        Mentions(db.rows, First(log, id), key);
    Append(log, s, id);
    assert id in after.attestations;
  }

  lemma DuplicateBacks(db: Tables, after: Tables, log: seq<Submission>, s: Submission)
    requires AllBacked(db, log) && after.attestations == db.attestations && after.rows == db.rows
    ensures AllBacked(after, log + [s])
  {
    forall key | key in after.rows
      ensures Backed(after, log + [s], key)
    {
      DuplicateBacksOne(db, after, log, s, key);
    }
  }

  /** A `persist` that is not refused takes tables that represent a log to tables
      that represent the log with the submission appended. */
  lemma CommitAppends(db: Tables, log: seq<Submission>, s: Submission, d: Draws)
    requires Represents(db, log) && Fresh(db, d) && Admissible(s) && !Conflict(db, s)
    ensures Represents(Apply(db, s, d), log + [s])
  {
    if s.id in db.attestations {
      DuplicateCommit(db, log, s, d);
    } else {
      NewCommit(db, log, s, d);
    }
  }

  /** A refusal is decided by the log alone: the id has accepted another bundle. */
  lemma ConflictIsInLog(db: Tables, log: seq<Submission>, s: Submission)
    requires AllStored(db, log)
    ensures Conflict(db, s) <==>
      Bound(log, s.id).Some? && s.proof.Some? && Bound(log, s.id).value.bundleDigest != s.proof.value.bundleDigest
  {
    if s.id in db.attestations {
      assert Stored(db, log, s.id);
    } else {
      UnseenIsEmpty(log, s.id);
    }
  }
}
