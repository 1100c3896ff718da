/** What the replies and the stored rows promise over a whole run. */
module History {
  import opened Tables
  import opened Persist
  import opened Log
  import opened Commit
  import opened Concurrency
  import opened Progress

  // ---- Exactly once ----

  /** The committed transactions that submitted an id. */
  function CommittedWith(st: State, id: string): set<nat> {
    set i | 0 <= i < |st.txns| && st.txns[i].phase.Committed? && st.txns[i].s.id == id
  }

  function EntriesWith(log: seq<Entry>, id: string): set<nat> {
    set e | 0 <= e < |log| && log[e].s.id == id :: log[e].txn
  }

  function Committers(log: seq<Entry>): set<nat> {
    set e | 0 <= e < |log| :: log[e].txn
  }

  lemma {:induction false} CommittersAreCounted(log: seq<Entry>)
    requires forall e, f | 0 <= e < f < |log| :: log[e].txn != log[f].txn
    ensures |Committers(log)| == |log|
    decreases |log|
  {
    if log != [] {
      var n := |log| - 1;
      CommittersAreCounted(log[..n]);
      assert Committers(log) == Committers(log[..n]) + {log[n].txn};
    }
  }

  /** Each committed transaction is in the log once. */
  lemma AcceptedAreCounted(st: State)
    requires LogSound(st)
    ensures |set i | 0 <= i < |st.txns| && st.txns[i].phase.Committed?| == |st.log|
  {
    var committed := set i | 0 <= i < |st.txns| && st.txns[i].phase.Committed?;
    forall i | i in committed
      ensures i in Committers(st.log)
    {
      assert Logged(st, i);
    }
    forall i | i in Committers(st.log)
      ensures i in committed
    {
      var e :| 0 <= e < |st.log| && st.log[e].txn == i;
      assert EntrySound(st, e);
    }
    assert committed == Committers(st.log);
    CommittersAreCounted(st.log);
  }

  lemma EntriesAppend(log: seq<Entry>, id: string)
    requires log != [] && forall e, f | 0 <= e < f < |log| :: log[e].txn != log[f].txn
    ensures var n := |log| - 1;
      && EntriesWith(log, id) == EntriesWith(log[..n], id) + (if log[n].s.id == id then {log[n].txn} else {})
      && log[n].txn !in EntriesWith(log[..n], id)
      && Submissions(log)[..n] == Submissions(log[..n])
  {
  }

  lemma {:induction false} EntriesAreCounted(log: seq<Entry>, id: string)
    requires forall e, f | 0 <= e < f < |log| :: log[e].txn != log[f].txn
    ensures |EntriesWith(log, id)| == Count(Submissions(log), id)
    decreases |log|
  {
    if log != [] {
      EntriesAppend(log, id);
      EntriesAreCounted(log[..|log| - 1], id);
    }
  }

  lemma {:induction false} SeenAt(log: seq<Submission>, id: string) returns (e: nat)
    requires Seen(log, id)
    ensures e < |log| && log[e].id == id && !Seen(log[..e], id)
  {
    var n := |log| - 1;
    if Seen(log[..n], id) {
      e := SeenAt(log[..n], id);
      assert log[..n][..e] == log[..e];
    } else {
      e := n;
    }
  }

  lemma {:induction false} SeenIf(log: seq<Submission>, e: nat)
    requires e < |log|
    ensures Seen(log, log[e].id)
  {
    if e < |log| - 1 {
      SeenIf(log[..|log| - 1], e);
    }
  }

  lemma CommittedAreLogged(st: State, id: string)
    requires LogSound(st)
    ensures CommittedWith(st, id) == EntriesWith(st.log, id)
  {
    forall i | i in CommittedWith(st, id)
      ensures i in EntriesWith(st.log, id)
    {
      assert Logged(st, i);
      var e :| 0 <= e < |st.log| && st.log[e].txn == i;
      assert EntrySound(st, e);
    }
    forall i | i in EntriesWith(st.log, id)
      ensures i in CommittedWith(st, id)
    {
      var e :| 0 <= e < |st.log| && st.log[e].s.id == id && st.log[e].txn == i;
      assert EntrySound(st, e);
    }
  }

  lemma StoredIsCounted(db: Tables, log: seq<Submission>, id: string)
    requires AllStored(db, log)
    ensures id in db.attestations <==> Count(log, id) > 0
    ensures id in db.attestations ==>
      db.attestations[id].id in db.submissions && db.submissions[db.attestations[id].id] == Count(log, id)
  {
    if id in db.attestations {
      assert Stored(db, log, id);
      SeenIsCounted(log, id);
    } else {
      UnseenIsEmpty(log, id);
    }
  }

  lemma {:induction false} SeenIsCounted(log: seq<Submission>, id: string)
    requires Seen(log, id)
    ensures Count(log, id) > 0
  {
    if log[|log| - 1].id != id {
      SeenIsCounted(log[..|log| - 1], id);
    }
  }

  lemma OneOriginal(st: State, id: string)
    requires LogSound(st) && CommittedWith(st, id) != {}
    ensures |set i | i in CommittedWith(st, id) && !st.txns[i].phase.duplicate| == 1
  {
    CommittedAreLogged(st, id);
    EntriesAreCounted(st.log, id);
    var log := Submissions(st.log);
    if !Seen(log, id) {
      UnseenIsEmpty(log, id);
    }
    var e := SeenAt(log, id);
    FirstIsTheOnlyOriginal(st, id, e);
  }

  /** Of the committed submissions of one id, exactly one was answered
      duplicate=false, and submission_count is how many there are. */
  lemma {:induction false} ExactlyOnce(hash: string -> int, steps: seq<Step>, id: string)
    requires CanTake(hash, INITIAL, steps)
    ensures var st := After(hash, INITIAL, steps);
      var committed := CommittedWith(st, id);
      && (committed != {} <==> id in st.db.attestations)
      && (committed != {} ==>
          && st.db.attestations[id].id in st.db.submissions
          && st.db.submissions[st.db.attestations[id].id] == |committed|
          && |set i | i in committed && !st.txns[i].phase.duplicate| == 1)
  {
    var st := After(hash, INITIAL, steps);
    RunKeepsInv(hash, INITIAL, steps);
    CommittedAreLogged(st, id);
    EntriesAreCounted(st.log, id);
    StoredIsCounted(st.db, Submissions(st.log), id);
    if CommittedWith(st, id) != {} {
      OneOriginal(st, id);
    }
  }

  lemma FirstIsTheOnlyOriginal(st: State, id: string, e: nat)
    requires LogSound(st)
    requires e < |st.log| && st.log[e].s.id == id && !Seen(Submissions(st.log)[..e], id)
    ensures (set i | i in CommittedWith(st, id) && !st.txns[i].phase.duplicate) == {st.log[e].txn}
  {
    CommittedAreLogged(st, id);
    forall f | 0 <= f < |st.log| && st.log[f].s.id == id
      ensures st.log[f].txn < |st.txns| && st.txns[st.log[f].txn].phase == Committed(f != e)
    {
      assert EntrySound(st, f);
      assert Submissions(st.log)[..f] == Submissions(st.log[..f]);
      if f > e {
        SeenIf(Submissions(st.log[..f]), e);
      } else if f < e {
        SeenIf(Submissions(st.log)[..e], f);
      }
    }
    assert st.log[e].txn in EntriesWith(st.log, id);
  }

  /** The inserts never meet a UNIQUE violation: the only statement that decides to
      roll a transaction back is the identity check, on a bundle other than the bound
      one. (A value that the database cannot store is a `Lose`.) */
  lemma {:induction false} OnlyConflictsFail(hash: string -> int, steps: seq<Step>, i: nat)
    requires CanTake(hash, INITIAL, steps) && Enabled(hash, After(hash, INITIAL, steps), Run(i))
    ensures var st := After(hash, INITIAL, steps);
      Do(hash, st, Run(i)).txns[i].phase.RolledBack? <==>
        st.txns[i].phase.pc.AtDuplicateIdentity? && Conflict(st.db, st.txns[i].s)
  {
    var st := After(hash, INITIAL, steps);
    RunKeepsInv(hash, INITIAL, steps);
    assert TxnSound(hash, st.db, st.txns[i]);
    FreshMeets(hash, st, i);
    if !st.txns[i].phase.pc.AtCommit? {
      StatementKeepsShape(st.db, st.txns[i].s, st.txns[i].d, st.txns[i].phase.pc);
    }
  }

  /** Resubmitting an id that has an identity changes no identity. The same bundle,
      or none, is still counted; another bundle is refused, counter and all. */
  lemma Resubmission(db: Tables, log: seq<Submission>, s: Submission, d: Draws)
    requires AllStored(db, log) && d.Valid()
    requires s.id in db.attestations && db.attestations[s.id].id in db.identities
    ensures var a := db.attestations[s.id].id;
      && a in db.submissions
      && (Conflict(db, s) <==> s.proof.Some? && s.proof.value.bundleDigest != db.identities[a].bundleDigest)
      && (!Conflict(db, s) ==> Apply(db, s, d) == db.(submissions := db.submissions[a := db.submissions[a] + 1]))
  {
    assert Stored(db, log, s.id);
    if !Conflict(db, s) {
      ApplyDuplicate(db, s, d);
    }
  }

  // ---- What is stored stays stored ----

  /** Later tables keep every row: index rows exactly (an upsert never changes one),
      attestations with their bytes, runs, identities once bound, and findings;
      counts only rise. */
  ghost predicate Grows(db: Tables, after: Tables) {
    && (forall key | key in db.rows :: key in after.rows && after.rows[key] == db.rows[key])
    && (forall id | id in db.attestations :: id in after.attestations && after.attestations[id] == db.attestations[id])
    && (forall n | n in db.submissions :: n in after.submissions && after.submissions[n] >= db.submissions[n])
    && (forall n | n in db.runs :: n in after.runs && after.runs[n] == db.runs[n])
    && (forall n | n in db.identities :: n in after.identities && after.identities[n] == db.identities[n])
    && db.findings <= after.findings
  }

  lemma SpellingIsStable(rows: map<Key, Row>, after: map<Key, Row>, key: Key)
    requires Extends(rows, after) && IdsUnique(after) && PurlsSpelled(rows) && PurlsSpelled(after)
    requires key in rows
    ensures after[key] == rows[key]
  {
    if key.VersionKey? {
      assert SpelledBy(rows, key) && SpelledBy(after, key);
    }
  }

  lemma RowsGrow(rows: map<Key, Row>, after: map<Key, Row>)
    requires Extends(rows, after) && IdsUnique(after) && PurlsSpelled(rows) && PurlsSpelled(after)
    ensures forall key | key in rows :: key in after && after[key] == rows[key]
  {
    forall key | key in rows
      ensures key in after && after[key] == rows[key]
    {
      SpellingIsStable(rows, after, key);
    }
  }

  lemma InsertsGrow(db: Tables, after: Tables, s: Submission, d: Draws, a: AttestationRow, run: RunRow)
    requires s.id !in db.attestations && FreshAttestation(db, d)
    requires after.attestations == db.attestations + map[s.id := a]
    requires after.submissions == db.submissions + map[d.attestation := 1]
    requires after.runs == db.runs + map[d.attestation := run]
    requires after.identities == db.identities + ProofRows(d.attestation, s.proof)
    requires db.findings <= after.findings
    requires forall key | key in db.rows :: key in after.rows && after.rows[key] == db.rows[key]
    ensures Grows(db, after)
  {
  }

  lemma NewGrows(db: Tables, after: Tables, s: Submission, d: Draws)
    requires NewCommitted(db, after, s, d) && s.id !in db.attestations && FreshAttestation(db, d)
    requires IdsUnique(after.rows) && PurlsSpelled(db.rows) && PurlsSpelled(after.rows)
    ensures Grows(db, after)
  {
    RowsGrow(db.rows, after.rows);
    InsertsGrow(db, after, s, d, AttestationRow(d.attestation, s.document, after.rows[SignerKey(s.keyId)].id),
                RunOf(after.rows, s, d.run));
  }

  lemma RecountGrows(db: Tables, s: Submission)
    requires s.id in db.attestations && db.attestations[s.id].id in db.submissions
    ensures Grows(db, Recount(db, s))
  {
  }

  lemma NewTablesGrow(db: Tables, log: seq<Submission>, s: Submission, d: Draws)
    requires Represents(db, log) && Fresh(db, d) && Admissible(s) && s.id !in db.attestations
    ensures Grows(db, NewTables(db, s, d))
  {
    NewIsCommitted(db, s, d);
    NewRowsAreSound(db, s, d);
    FreshMeetsNothing(db, log, d);
    NewGrows(db, NewTables(db, s, d), s, d);
  }

  lemma CommitGrows(db: Tables, log: seq<Submission>, s: Submission, d: Draws)
    requires Represents(db, log) && Fresh(db, d) && Admissible(s) && !Conflict(db, s)
    ensures Grows(db, Apply(db, s, d))
  {
    if s.id in db.attestations {
      StoredIsCounted(db, log, s.id);
      ApplyDuplicate(db, s, d);
      RecountGrows(db, s);
    } else {
      ApplyNew(db, s, d);
      NewTablesGrow(db, log, s, d);
    }
  }

  lemma {:induction false} RunGrows(hash: string -> int, st: State, steps: seq<Step>)
    requires Inv(hash, st) && CanTake(hash, st, steps)
    ensures Grows(st.db, After(hash, st, steps).db) && st.log <= After(hash, st, steps).log
    decreases |steps|
  {
    if steps != [] {
      var next := Do(hash, st, steps[0]);
      StepGrows(hash, st, steps[0]);
      StepKeepsInv(hash, st, steps[0]);
      RunGrows(hash, next, steps[1..]);
      GrowsTransitive(st.db, next.db, After(hash, st, steps).db);
    }
  }

  lemma GrowsTransitive(a: Tables, b: Tables, c: Tables)
    requires Grows(a, b) && Grows(b, c)
    ensures Grows(a, c)
  {
  }

  lemma StepGrows(hash: string -> int, st: State, step: Step)
    requires Inv(hash, st) && Enabled(hash, st, step)
    ensures Grows(st.db, Do(hash, st, step).db) && st.log <= Do(hash, st, step).log
    ensures !(step.Run? && st.txns[step.i].phase.pc.AtCommit?) ==> Do(hash, st, step).db == st.db
  {
    if step.Run? && st.txns[step.i].phase.pc.AtCommit? {
      var t := st.txns[step.i];
      assert TxnSound(hash, st.db, t);
      CommitIsApply(hash, st.db, Submissions(st.log), t);
      CommitGrows(st.db, Submissions(st.log), t.s, t.d);
    }
  }
}
