/** Any number of `persist` transactions interleaved one statement at a time,
    under PostgreSQL's default isolation: a statement sees every row committed
    before it and the transaction's own writes, and locks are held to the end of
    the transaction. */
module Concurrency {
  import opened Wrappers
  import opened Tables
  import opened Persist
  import opened Log
  import opened Commit

  datatype Phase =
    | Running(pc: Pc, work: Work)
    | Committed(duplicate: bool)
    | RolledBack

  datatype Txn = Txn(s: Submission, d: Draws, phase: Phase, held: set<Lock>)

  /** A commit, and the reply it gave. */
  datatype Entry = Entry(txn: nat, s: Submission, d: Draws, duplicate: bool)

  /** The committed tables, every transaction ever begun, and the commits in order. */
  datatype State = State(db: Tables, txns: seq<Txn>, log: seq<Entry>)

  const INITIAL := State(EMPTY_TABLES, [], [])

  /** A request begins a transaction; a transaction runs its next statement; a
      connection is lost or times out, or the database refuses to store a value, and
      the transaction is rolled back. */
  datatype Step = Begin(s: Submission, d: Draws) | Run(i: nat) | Lose(i: nat)

  predicate IsRunning(st: State, i: nat) {
    i < |st.txns| && st.txns[i].phase.Running?
  }

  /** No sequence gives both transactions the same value. */
  predicate DrawsApart(d: Draws, e: Draws)
    requires d.Valid() && e.Valid()
  {
    && (forall k, m | 0 <= k < UPSERTS && 0 <= m < UPSERTS && TableAt(k) == TableAt(m) :: d.upserts[k] != e.upserts[m])
    && d.attestation != e.attestation
    && d.run != e.run
  }

  /** The sequences have handed these values to nothing stored or in flight. */
  ghost predicate Unused(st: State, d: Draws) {
    && Fresh(st.db, d)
    && forall i: nat | IsRunning(st, i) :: st.txns[i].d.Valid() && DrawsApart(d, st.txns[i].d)
  }

  function WantedBy(hash: string -> int, t: Txn): Option<Lock>
    requires t.phase.Running? && Runnable(t.d, t.phase.pc, t.phase.work)
  {
    Wanted(hash, t.s, t.phase.pc, t.phase.work.ids)
  }

  /** Transaction `i` needs a lock that `j` holds. */
  predicate WaitsFor(hash: string -> int, st: State, i: nat, j: nat) {
    && IsRunning(st, i) && j < |st.txns| && i != j
    && Runnable(st.txns[i].d, st.txns[i].phase.pc, st.txns[i].phase.work)
    && WantedBy(hash, st.txns[i]).Some?
    && WantedBy(hash, st.txns[i]).value in st.txns[j].held
  }

  predicate Blocked(hash: string -> int, st: State, i: nat) {
    exists j | 0 <= j < |st.txns| :: WaitsFor(hash, st, i, j)
  }

  ghost predicate Enabled(hash: string -> int, st: State, step: Step) {
    match step
    case Begin(s, d) => Admissible(s) && Unused(st, d)
    case Run(i) =>
      IsRunning(st, i) && Runnable(st.txns[i].d, st.txns[i].phase.pc, st.txns[i].phase.work) && !Blocked(hash, st, i)
    case Lose(i) => IsRunning(st, i)
  }

  function Finish(t: Txn, phase: Phase): Txn {
    t.(phase := phase, held := {})
  }

  function Advance(hash: string -> int, db: Tables, t: Txn): Txn
    requires t.phase.Running? && !t.phase.pc.AtCommit? && Runnable(t.d, t.phase.pc, t.phase.work)
  {
    var wanted := WantedBy(hash, t);
    match Execute(db, t.s, t.d, t.phase.pc, t.phase.work)
    case Fail => Finish(t, RolledBack)
    case Go(pc, work) =>
      t.(phase := Running(pc, work), held := t.held + if wanted.Some? then {wanted.value} else {})
  }

  function Do(hash: string -> int, st: State, step: Step): State
    requires !step.Begin? ==> IsRunning(st, step.i)
    requires step.Run? ==> Runnable(st.txns[step.i].d, st.txns[step.i].phase.pc, st.txns[step.i].phase.work)
  {
    match step
    case Begin(s, d) => st.(txns := st.txns + [Txn(s, d, Running(AtLock, NO_WORK), {})])
    case Lose(i) => st.(txns := st.txns[i := Finish(st.txns[i], RolledBack)])
    case Run(i) =>
      var t := st.txns[i];
      if t.phase.pc.AtCommit? then
        var duplicate := t.phase.pc.duplicate;
        State(Overlay(st.db, t.phase.work.delta),
              st.txns[i := Finish(t, Committed(duplicate))],
              st.log + [Entry(i, t.s, t.d, duplicate)])
      else st.(txns := st.txns[i := Advance(hash, st.db, t)])
  }

  function Submissions(log: seq<Entry>): seq<Submission> {
    seq(|log|, i requires 0 <= i < |log| => log[i].s)
  }

  /** The tables after running the committed requests one at a time, in commit order. */
  ghost function Replay(log: seq<Entry>): Option<Tables> {
    if log == [] then Some(EMPTY_TABLES)
    else
      var before := Replay(log[..|log| - 1]);
      var e := log[|log| - 1];
      if before.Some? && e.d.Valid() && !Conflict(before.value, e.s) then Some(Apply(before.value, e.s, e.d)) else None
  }

  // ---- The invariant ----

  /** The locks a transaction holds at `pc`: the advisory lock of its id, and the
      rows of its upserts. */
  function HeldAt(hash: string -> int, s: Submission, pc: Pc, rows: map<Key, Row>): set<Lock> {
    (if pc.AtLock? then {} else {Advisory(hash(s.id))}) + set key | key in rows :: RowLock(key)
  }

  ghost predicate TxnSound(hash: string -> int, db: Tables, t: Txn) {
    if t.phase.Running? then
      && Admissible(t.s)
      && Fresh(db, t.d)
      && OnPath(db, t.s, t.phase.pc)
      && t.phase.work == WorkAt(db, t.s, t.d, t.phase.pc)
      && t.held == HeldAt(hash, t.s, t.phase.pc, t.phase.work.delta.rows)
    else t.held == {}
  }

  ghost predicate Apart(st: State, i: nat, j: nat)
    requires i < |st.txns| && j < |st.txns|
  {
    && st.txns[i].held !! st.txns[j].held
    && (IsRunning(st, i) && IsRunning(st, j) && st.txns[i].d.Valid() && st.txns[j].d.Valid() ==>
        DrawsApart(st.txns[i].d, st.txns[j].d))
  }

  ghost predicate AllSound(hash: string -> int, st: State) {
    forall i {:trigger TxnSound(hash, st.db, st.txns[i])} | 0 <= i < |st.txns| :: TxnSound(hash, st.db, st.txns[i])
  }

  ghost predicate AllApart(st: State) {
    forall i, j {:trigger Apart(st, i, j)} | 0 <= i < |st.txns| && 0 <= j < |st.txns| && i != j :: Apart(st, i, j)
  }

  /** Entry `e` is the commit of a transaction, and says what that transaction replied. */
  predicate EntrySound(st: State, e: nat)
    requires e < |st.log|
  {
    var entry := st.log[e];
    && entry.txn < |st.txns|
    && st.txns[entry.txn].phase == Committed(entry.duplicate)
    && st.txns[entry.txn].s == entry.s
    && Admissible(entry.s)
    && (entry.duplicate <==> Seen(Submissions(st.log[..e]), entry.s.id))
  }

  predicate Logged(st: State, i: nat) {
    exists e :: 0 <= e < |st.log| && st.log[e].txn == i
  }

  /** The log lists every committed transaction once, with its reply. */
  ghost predicate LogSound(st: State) {
    && (forall e {:trigger EntrySound(st, e)} | 0 <= e < |st.log| :: EntrySound(st, e))
    && (forall e, f | 0 <= e < f < |st.log| :: st.log[e].txn != st.log[f].txn)
    && (forall i {:trigger Logged(st, i)} | 0 <= i < |st.txns| && st.txns[i].phase.Committed? :: Logged(st, i))
  }

  ghost predicate Inv(hash: string -> int, st: State) {
    && Represents(st.db, Submissions(st.log))
    && Replay(st.log) == Some(st.db)
    && AllSound(hash, st)
    && AllApart(st)
    && LogSound(st)
  }

  // ---- Another transaction's commit changes nothing that this one has read ----

  predicate Same<K, V(==)>(m: map<K, V>, n: map<K, V>, key: K) {
    (key in m <==> key in n) && (key in m ==> m[key] == n[key])
  }

  lemma {:induction false} UpsertsFrame(base: map<Key, Row>, after: map<Key, Row>, s: Submission, d: Draws, k: nat)
    requires d.Valid() && k <= UPSERTS
    requires forall key | key in UpsertsAt(base, s, d, k).rows :: Same(base, after, key)
    ensures UpsertsAt(after, s, d, k) == UpsertsAt(base, s, d, k)
  {
    if k > 0 {
      var u := UpsertsAt(base, s, d, k - 1);
      assert KeyAt(s, u.ids, k - 1) in UpsertsAt(base, s, d, k).rows;
      UpsertsFrame(base, after, s, d, k - 1);
    }
  }

  lemma InsertRows(u: Upserts, s: Submission, d: Draws, pc: Pc)
    requires |u.ids| == UPSERTS
    ensures InsertWork(u, s, d, pc).delta.rows == u.rows
    decreases Rank(pc)
  {
    match pc
    case AtSubmission => InsertRows(u, s, d, AtRun);
    case AtIdentity => InsertRows(u, s, d, AtSubmission);
    case AtFindings => InsertRows(u, s, d, AtIdentity);
    case AtCommit(_) => InsertRows(u, s, d, AtFindings);
    case _ =>
  }

  /** The tables agree on everything a transaction at `pc` has read or will rely on. */
  ghost predicate Agree(db: Tables, after: Tables, s: Submission, d: Draws, pc: Pc)
    requires d.Valid() && OnPath(db, s, pc)
  {
    && (forall key | key in WorkAt(db, s, d, pc).delta.rows :: Same(db.rows, after.rows, key))
    && (!pc.AtLock? ==>
        && Same(db.attestations, after.attestations, s.id)
        && (s.id in db.attestations ==>
            var a := db.attestations[s.id].id;
            Same(db.submissions, after.submissions, a) && Same(db.identities, after.identities, a)))
  }

  lemma WorkFrame(db: Tables, after: Tables, s: Submission, d: Draws, pc: Pc)
    requires d.Valid() && OnPath(db, s, pc) && Agree(db, after, s, d, pc)
    ensures OnPath(after, s, pc) && WorkAt(after, s, d, pc) == WorkAt(db, s, d, pc)
  {
    if pc.AtLock? || pc.AtFind? {
    } else if s.id !in db.attestations {
      var k := if pc.AtUpsert? then pc.k else UPSERTS;
      if !pc.AtUpsert? {
        InsertRows(UpsertsAt(db.rows, s, d, UPSERTS), s, d, pc);
      }
      UpsertsFrame(db.rows, after.rows, s, d, k);
    }
  }

  /** Every row after the upserts has an old id or a value they drew for its table. */
  ghost predicate Drawn(base: map<Key, Row>, d: Draws, k: nat, key: Key, id: nat)
    requires d.Valid() && k <= UPSERTS
  {
    || (key in base && base[key].id == id)
    || exists m :: 0 <= m < k && TableAt(m) == TableOf(key) && d.upserts[m] == id
  }

  lemma {:induction false} RowsAreDrawn(base: map<Key, Row>, s: Submission, d: Draws, k: nat, key: Key)
    requires d.Valid() && k <= UPSERTS && s.WellTyped()
    requires key in RowsAfter(base, s, d, k)
    ensures Drawn(base, d, k, key, RowsAfter(base, s, d, k)[key].id)
  {
    if k > 0 {
      UpsertStep(base, s, d, k - 1);
      var ids := UpsertsAt(base, s, d, k - 1).ids;
      KeyAtPrefix(s, ids, 0, k - 1);
      if key in RowsAfter(base, s, d, k - 1) {
        RowsAreDrawn(base, s, d, k - 1, key);
      } else {
        assert d.upserts[k - 1] == RowsAfter(base, s, d, k)[key].id;
      }
    }
  }

  lemma RowsStayUnused(db: Tables, s: Submission, d: Draws, e: Draws)
    requires d.Valid() && s.WellTyped() && Fresh(db, e) && DrawsApart(d, e)
    ensures Pending(RowsAfter(db.rows, s, d, UPSERTS), e, 0)
  {
    var rows := RowsAfter(db.rows, s, d, UPSERTS);
    forall key, j | key in rows && 0 <= j < UPSERTS && TableOf(key) == TableAt(j)
      ensures rows[key].id != e.upserts[j]
    {
      RowsAreDrawn(db.rows, s, d, UPSERTS, key);
    }
  }

  /** The attestation id that a committing transaction writes under. */
  function AttestationIdOf(db: Tables, s: Submission, d: Draws): nat {
    if s.id in db.attestations then db.attestations[s.id].id else d.attestation
  }

  lemma DeltaKeys(db: Tables, s: Submission, d: Draws)
    requires d.Valid() && !Conflict(db, s)
    ensures var delta := WorkAt(db, s, d, AtCommit(s.id in db.attestations)).delta;
      var a := AttestationIdOf(db, s, d);
      && delta.attestations.Keys <= {s.id} && delta.submissions.Keys <= {a}
      && delta.runs.Keys <= {a} && delta.identities.Keys <= {a}
  {
    if s.id !in db.attestations {
      InsertWorkTables(UpsertsAt(db.rows, s, d, UPSERTS), s, d);
    }
  }

  lemma DuplicateKeepsFresh(db: Tables, s: Submission, d: Draws, e: Draws)
    requires d.Valid() && Fresh(db, e) && !Conflict(db, s) && s.id in db.attestations
    ensures Fresh(Apply(db, s, d), e)
  {
    var after := Apply(db, s, d);
    assert after.attestations == db.attestations;
    assert after.rows == db.rows;
    assert after.runs == db.runs;
  }

  lemma NewKeepsFresh(db: Tables, s: Submission, d: Draws, e: Draws)
    requires d.Valid() && Fresh(db, e) && DrawsApart(d, e) && s.WellTyped() && s.id !in db.attestations
    ensures Fresh(NewTables(db, s, d), e)
  {
    RowsStayUnused(db, s, d, e);
    var after := NewTables(db, s, d);
    forall id | id in after.attestations
      ensures after.attestations[id].id != e.attestation
    {
    }
    forall n | n in after.runs
      ensures after.runs[n].id != e.run
    {
    }
  }

  lemma CommitKeepsFresh(db: Tables, s: Submission, d: Draws, e: Draws)
    requires d.Valid() && Fresh(db, e) && DrawsApart(d, e) && s.WellTyped() && !Conflict(db, s)
    ensures Fresh(Apply(db, s, d), e)
  {
    if s.id in db.attestations {
      DuplicateKeepsFresh(db, s, d, e);
    } else {
      ApplyNew(db, s, d);
      NewKeepsFresh(db, s, d, e);
    }
  }

  lemma RowsKeptApart(hash: string -> int, db: Tables, t: Txn, u: Txn, key: Key)
    requires TxnSound(hash, db, t) && t.phase.Running? && TxnSound(hash, db, u) && u.phase.Running?
    requires t.held !! u.held && key in u.phase.work.delta.rows
    ensures key !in t.phase.work.delta.rows
  {
    assert RowLock(key) in u.held;
    assert key in t.phase.work.delta.rows ==> RowLock(key) in t.held;
  }

  lemma IdsKeptApart(hash: string -> int, db: Tables, t: Txn, u: Txn)
    requires TxnSound(hash, db, t) && t.phase.Running? && !t.phase.pc.AtLock?
    requires TxnSound(hash, db, u) && u.phase.Running? && !u.phase.pc.AtLock?
    requires t.held !! u.held
    ensures t.s.id != u.s.id
  {
    assert Advisory(hash(t.s.id)) in t.held && Advisory(hash(u.s.id)) in u.held;
  }

  /** A commit writes nothing under the attestation of another id. */
  lemma OthersStay(db: Tables, s: Submission, d: Draws, id: string)
    requires AttestationIdsUnique(db) && Fresh(db, d) && !Conflict(db, s) && id != s.id
    ensures var after := Overlay(db, WorkAt(db, s, d, AtCommit(s.id in db.attestations)).delta);
      && Same(db.attestations, after.attestations, id)
      && (id in db.attestations ==>
          var a := db.attestations[id].id;
          Same(db.submissions, after.submissions, a) && Same(db.identities, after.identities, a))
  {
    DeltaKeys(db, s, d);
  }

  /** The locks of a transaction in flight keep another's commit away from what it has read. */
  lemma CommitAgrees(hash: string -> int, db: Tables, t: Txn, u: Txn)
    requires AttestationIdsUnique(db)
    requires TxnSound(hash, db, t) && t.phase.Running? && t.phase.pc.AtCommit?
    requires TxnSound(hash, db, u) && u.phase.Running?
    requires t.held !! u.held
    ensures Agree(db, Overlay(db, t.phase.work.delta), u.s, u.d, u.phase.pc)
  {
    forall key | key in u.phase.work.delta.rows
      ensures key !in t.phase.work.delta.rows
    {
      RowsKeptApart(hash, db, t, u, key);
    }
    if !u.phase.pc.AtLock? {
      IdsKeptApart(hash, db, t, u);
      OthersStay(db, t.s, t.d, u.s.id);
    }
  }

  lemma CommitKeepsOther(hash: string -> int, db: Tables, t: Txn, u: Txn)
    requires AttestationIdsUnique(db)
    requires TxnSound(hash, db, t) && t.phase.Running? && t.phase.pc.AtCommit?
    requires TxnSound(hash, db, u)
    requires t.held !! u.held && (u.phase.Running? ==> DrawsApart(t.d, u.d))
    ensures TxnSound(hash, Overlay(db, t.phase.work.delta), u)
  {
    if u.phase.Running? {
      CommitKeepsWork(hash, db, t, u);
      CommitKeepsFresh(db, t.s, t.d, u.d);
    }
  }

  lemma CommitKeepsWork(hash: string -> int, db: Tables, t: Txn, u: Txn)
    requires AttestationIdsUnique(db)
    requires TxnSound(hash, db, t) && t.phase.Running? && t.phase.pc.AtCommit?
    requires TxnSound(hash, db, u) && u.phase.Running? && t.held !! u.held
    ensures var after := Overlay(db, t.phase.work.delta);
      OnPath(after, u.s, u.phase.pc) && WorkAt(after, u.s, u.d, u.phase.pc) == u.phase.work
  {
    CommitAgrees(hash, db, t, u);
    WorkFrame(db, Overlay(db, t.phase.work.delta), u.s, u.d, u.phase.pc);
  }

  // ---- Every step keeps the invariant ----

  lemma UpsertHolds(hash: string -> int, db: Tables, s: Submission, d: Draws, k: nat)
    requires d.Valid() && k < UPSERTS
    ensures var u := UpsertsAt(db.rows, s, d, k);
      (set key | key in UpsertsAt(db.rows, s, d, k + 1).rows :: RowLock(key)) ==
      (set key | key in u.rows :: RowLock(key)) + {RowLock(KeyAt(s, u.ids, k))}
  {
  }

  /** The rows that a transaction has written at a statement after its upserts stay the same. */
  lemma RowsAtInsert(db: Tables, s: Submission, d: Draws, pc: Pc)
    requires d.Valid() && OnPath(db, s, pc) && s.id !in db.attestations && Rank(pc) >= Rank(AtAttestation)
    ensures WorkAt(db, s, d, pc).delta.rows == UpsertsAt(db.rows, s, d, UPSERTS).rows
  {
    InsertRows(UpsertsAt(db.rows, s, d, UPSERTS), s, d, pc);
  }

  /** The rows that a transaction has written when it reaches the next statement. */
  lemma RowsAtNext(db: Tables, s: Submission, d: Draws, pc: Pc, next: Pc)
    requires !pc.AtCommit? && d.Valid() && OnPath(db, s, pc) && OnPath(db, s, next)
    requires Execute(db, s, d, pc, WorkAt(db, s, d, pc)).Go? && Execute(db, s, d, pc, WorkAt(db, s, d, pc)).pc == next
    ensures WorkAt(db, s, d, next).delta.rows ==
      if pc.AtUpsert? then UpsertsAt(db.rows, s, d, pc.k + 1).rows else WorkAt(db, s, d, pc).delta.rows
  {
    if Rank(next) >= Rank(AtAttestation) && s.id !in db.attestations {
      RowsAtInsert(db, s, d, next);
      if Rank(pc) >= Rank(AtAttestation) {
        RowsAtInsert(db, s, d, pc);
      }
    }
  }

  /** Running a statement adds exactly the lock it wanted. */
  lemma StatementHolds(hash: string -> int, db: Tables, s: Submission, d: Draws, pc: Pc, next: Pc)
    requires !pc.AtCommit? && d.Valid() && OnPath(db, s, pc) && OnPath(db, s, next)
    requires Execute(db, s, d, pc, WorkAt(db, s, d, pc)).Go? && Execute(db, s, d, pc, WorkAt(db, s, d, pc)).pc == next
    ensures var wanted := Wanted(hash, s, pc, WorkAt(db, s, d, pc).ids);
      HeldAt(hash, s, next, WorkAt(db, s, d, next).delta.rows) ==
      HeldAt(hash, s, pc, WorkAt(db, s, d, pc).delta.rows) + if wanted.Some? then {wanted.value} else {}
  {
    RowsAtNext(db, s, d, pc, next);
    if pc.AtUpsert? {
      UpsertHolds(hash, db, s, d, pc.k);
    }
  }

  lemma AdvanceKeepsSound(hash: string -> int, db: Tables, t: Txn)
    requires TxnSound(hash, db, t) && t.phase.Running? && !t.phase.pc.AtCommit? && FreshAttestation(db, t.d)
    ensures TxnSound(hash, db, Advance(hash, db, t))
  {
    var pc := t.phase.pc;
    StatementKeepsShape(db, t.s, t.d, pc);
    var next := Execute(db, t.s, t.d, pc, t.phase.work);
    if next.Go? {
      StatementHolds(hash, db, t.s, t.d, pc, next.pc);
    }
  }

  /** A transaction that changes only itself, without committing, keeps the rest. */
  lemma LocalStepKeepsLog(st: State, st': State, i: nat)
    requires LogSound(st) && i < |st.txns| && !st.txns[i].phase.Committed?
    requires st'.log == st.log && |st'.txns| == |st.txns| && st'.txns[i].s == st.txns[i].s
    requires !st'.txns[i].phase.Committed?
    requires forall j | 0 <= j < |st.txns| && j != i :: st'.txns[j] == st.txns[j]
    ensures LogSound(st')
  {
    forall e | 0 <= e < |st'.log|
      ensures EntrySound(st', e)
    {
      assert EntrySound(st, e);
    }
    forall j | 0 <= j < |st'.txns| && st'.txns[j].phase.Committed?
      ensures Logged(st', j)
    {
      assert Logged(st, j);
      var e :| 0 <= e < |st.log| && st.log[e].txn == j;
      assert st'.log[e].txn == j;
    }
  }

  lemma BeginKeepsSound(hash: string -> int, st: State, s: Submission, d: Draws)
    requires AllSound(hash, st) && AllApart(st) && Enabled(hash, st, Begin(s, d))
    ensures AllSound(hash, Do(hash, st, Begin(s, d))) && AllApart(Do(hash, st, Begin(s, d)))
  {
    var st' := Do(hash, st, Begin(s, d));
    var n := |st.txns|;
    forall i | 0 <= i < |st'.txns|
      ensures TxnSound(hash, st'.db, st'.txns[i])
    {
      if i < n {
        assert TxnSound(hash, st.db, st.txns[i]);
      }
    }
    forall i, j | 0 <= i < |st'.txns| && 0 <= j < |st'.txns| && i != j
      ensures Apart(st', i, j)
    {
      if i < n && j < n {
        assert Apart(st, i, j);
      } else if i < n {
        assert IsRunning(st', i) ==> IsRunning(st, i);
      } else {
        assert IsRunning(st', j) ==> IsRunning(st, j);
      }
    }
  }

  lemma BeginKeepsLog(st: State, st': State)
    requires LogSound(st) && st'.log == st.log && st.txns <= st'.txns
    requires forall i | |st.txns| <= i < |st'.txns| :: st'.txns[i].phase.Running?
    ensures LogSound(st')
  {
    forall e | 0 <= e < |st'.log|
      ensures EntrySound(st', e)
    {
      assert EntrySound(st, e);
    }
    forall i | 0 <= i < |st'.txns| && st'.txns[i].phase.Committed?
      ensures Logged(st', i)
    {
      assert Logged(st, i);
      var e :| 0 <= e < |st.log| && st.log[e].txn == i;
      assert st'.log[e].txn == i;
    }
  }

  lemma BeginKeepsInv(hash: string -> int, st: State, s: Submission, d: Draws)
    requires Inv(hash, st) && Enabled(hash, st, Begin(s, d))
    ensures Inv(hash, Do(hash, st, Begin(s, d)))
  {
    BeginKeepsSound(hash, st, s, d);
    BeginKeepsLog(st, Do(hash, st, Begin(s, d)));
  }

  lemma LoseKeepsInv(hash: string -> int, st: State, i: nat)
    requires Inv(hash, st) && Enabled(hash, st, Lose(i))
    ensures Inv(hash, Do(hash, st, Lose(i)))
  {
    var st' := Do(hash, st, Lose(i));
    forall j | 0 <= j < |st'.txns|
      ensures TxnSound(hash, st'.db, st'.txns[j])
    {
      assert TxnSound(hash, st.db, st.txns[j]);
    }
    forall j, k | 0 <= j < |st'.txns| && 0 <= k < |st'.txns| && j != k
      ensures Apart(st', j, k)
    {
      assert Apart(st, j, k);
    }
    LocalStepKeepsLog(st, st', i);
  }

  lemma AdvanceKeepsApart(hash: string -> int, st: State, i: nat)
    requires AllApart(st) && Enabled(hash, st, Run(i)) && !st.txns[i].phase.pc.AtCommit?
    ensures AllApart(Do(hash, st, Run(i)))
  {
    var st' := Do(hash, st, Run(i));
    forall j, k | 0 <= j < |st'.txns| && 0 <= k < |st'.txns| && j != k
      ensures Apart(st', j, k)
    {
      assert Apart(st, j, k);
      if j == i {
        assert !WaitsFor(hash, st, i, k);
      } else if k == i {
        assert !WaitsFor(hash, st, i, j);
      }
    }
  }

  lemma AdvanceKeepsInv(hash: string -> int, st: State, i: nat)
    requires Inv(hash, st) && Enabled(hash, st, Run(i)) && !st.txns[i].phase.pc.AtCommit?
    ensures Inv(hash, Do(hash, st, Run(i)))
  {
    var st' := Do(hash, st, Run(i));
    assert TxnSound(hash, st.db, st.txns[i]);
    FreshMeetsNothing(st.db, Submissions(st.log), st.txns[i].d);
    AdvanceKeepsSound(hash, st.db, st.txns[i]);
    forall j | 0 <= j < |st'.txns|
      ensures TxnSound(hash, st'.db, st'.txns[j])
    {
      assert TxnSound(hash, st.db, st.txns[j]);
    }
    AdvanceKeepsApart(hash, st, i);
    LocalStepKeepsLog(st, st', i);
  }

  /** The log and the phases after a commit by transaction `i`. */
  ghost predicate CommitLogged(st: State, st': State, i: nat) {
    && i < |st.txns| && st.txns[i].phase.Running? && Admissible(st.txns[i].s)
    && |st'.txns| == |st.txns| && st'.txns[i].s == st.txns[i].s && st'.txns[i].phase.Committed?
    && (forall j | 0 <= j < |st.txns| && j != i :: st'.txns[j] == st.txns[j])
    && st'.log == st.log + [Entry(i, st.txns[i].s, st.txns[i].d, st'.txns[i].phase.duplicate)]
    && (st'.txns[i].phase.duplicate <==> Seen(Submissions(st.log), st.txns[i].s.id))
  }

  lemma EntryStaysSound(st: State, st': State, i: nat, e: nat)
    requires CommitLogged(st, st', i) && e < |st'.log| && (e < |st.log| ==> EntrySound(st, e))
    ensures EntrySound(st', e) && (e < |st.log| ==> st'.log[e].txn != i)
  {
    if e < |st.log| {
      assert st'.log[..e] == st.log[..e];
    } else {
      assert st'.log[..e] == st.log;
    }
  }

  lemma StaysLogged(st: State, st': State, i: nat, j: nat)
    requires CommitLogged(st, st', i) && j < |st'.txns| && (j != i ==> Logged(st, j))
    ensures Logged(st', j)
  {
    if j == i {
      assert st'.log[|st.log|].txn == i;
    } else {
      var e :| 0 <= e < |st.log| && st.log[e].txn == j;
      assert st'.log[e].txn == j;
    }
  }

  lemma CommitKeepsLog(st: State, st': State, i: nat)
    requires LogSound(st) && CommitLogged(st, st', i)
    ensures LogSound(st')
  {
    forall e | 0 <= e < |st'.log|
      ensures EntrySound(st', e)
      ensures e < |st.log| ==> st'.log[e].txn != i
    {
      assert e < |st.log| ==> EntrySound(st, e);
      EntryStaysSound(st, st', i, e);
    }
    forall j | 0 <= j < |st'.txns| && st'.txns[j].phase.Committed?
      ensures Logged(st', j)
    {
      assert j != i ==> Logged(st, j);
      StaysLogged(st, st', i, j);
    }
  }

  lemma CommitKeepsSound(hash: string -> int, st: State, i: nat)
    requires AttestationIdsUnique(st.db) && AllSound(hash, st) && AllApart(st)
    requires Enabled(hash, st, Run(i)) && st.txns[i].phase.pc.AtCommit?
    ensures AllSound(hash, Do(hash, st, Run(i))) && AllApart(Do(hash, st, Run(i)))
  {
    var st' := Do(hash, st, Run(i));
    var t := st.txns[i];
    assert TxnSound(hash, st.db, t);
    forall j | 0 <= j < |st'.txns|
      ensures TxnSound(hash, st'.db, st'.txns[j])
    {
      assert TxnSound(hash, st.db, st.txns[j]);
      if j != i {
        assert Apart(st, i, j);
        CommitKeepsOther(hash, st.db, t, st.txns[j]);
      }
    }
    forall j, k | 0 <= j < |st'.txns| && 0 <= k < |st'.txns| && j != k
      ensures Apart(st', j, k)
    {
      assert Apart(st, j, k);
    }
  }

  lemma CommitReplays(db: Tables, log: seq<Entry>, entry: Entry)
    requires Replay(log) == Some(db) && entry.d.Valid() && !Conflict(db, entry.s)
    ensures Replay(log + [entry]) == Some(Apply(db, entry.s, entry.d))
  {
    assert (log + [entry])[..|log|] == log;
  }

  lemma SubmissionsAppend(log: seq<Entry>, entry: Entry)
    ensures Submissions(log + [entry]) == Submissions(log) + [entry.s]
  {
  }

  /** What a transaction at its commit knows, and what its commit leaves. */
  lemma CommitIsApply(hash: string -> int, db: Tables, log: seq<Submission>, t: Txn)
    requires Represents(db, log) && TxnSound(hash, db, t) && t.phase.Running? && t.phase.pc.AtCommit?
    ensures t.d.Valid() && !Conflict(db, t.s) && Overlay(db, t.phase.work.delta) == Apply(db, t.s, t.d)
    ensures t.phase.pc.duplicate <==> Seen(log, t.s.id)
    ensures Represents(Apply(db, t.s, t.d), log + [t.s])
  {
    CommitAppends(db, log, t.s, t.d);
  }

  lemma CommitKeepsTables(hash: string -> int, st: State, i: nat)
    requires Inv(hash, st) && Enabled(hash, st, Run(i)) && st.txns[i].phase.pc.AtCommit?
    ensures var st' := Do(hash, st, Run(i));
      Represents(st'.db, Submissions(st'.log)) && Replay(st'.log) == Some(st'.db)
    ensures st.txns[i].phase.pc.duplicate <==> Seen(Submissions(st.log), st.txns[i].s.id)
  {
    var t := st.txns[i];
    assert TxnSound(hash, st.db, t);
    var entry := Entry(i, t.s, t.d, t.phase.pc.duplicate);
    CommitIsApply(hash, st.db, Submissions(st.log), t);
    SubmissionsAppend(st.log, entry);
    CommitReplays(st.db, st.log, entry);
  }

  lemma CommitKeepsTxns(hash: string -> int, st: State, i: nat)
    requires AttestationIdsUnique(st.db) && AllSound(hash, st) && AllApart(st) && LogSound(st)
    requires Enabled(hash, st, Run(i)) && st.txns[i].phase.pc.AtCommit?
    requires st.txns[i].phase.pc.duplicate <==> Seen(Submissions(st.log), st.txns[i].s.id)
    ensures var st' := Do(hash, st, Run(i));
      AllSound(hash, st') && AllApart(st') && LogSound(st')
  {
    assert TxnSound(hash, st.db, st.txns[i]);
    CommitKeepsSound(hash, st, i);
    CommitKeepsLog(st, Do(hash, st, Run(i)), i);
  }

  lemma CommitKeepsInv(hash: string -> int, st: State, i: nat)
    requires Inv(hash, st) && Enabled(hash, st, Run(i)) && st.txns[i].phase.pc.AtCommit?
    ensures Inv(hash, Do(hash, st, Run(i)))
  {
    CommitKeepsTables(hash, st, i);
    CommitKeepsTxns(hash, st, i);
  }

  // ---- Every run ----

  /** The steps can be taken one after the other from `st`. */
  ghost predicate CanTake(hash: string -> int, st: State, steps: seq<Step>)
    decreases |steps|
  {
    steps == [] || (Enabled(hash, st, steps[0]) && CanTake(hash, Do(hash, st, steps[0]), steps[1..]))
  }

  ghost function After(hash: string -> int, st: State, steps: seq<Step>): State
    requires CanTake(hash, st, steps)
    decreases |steps|
  {
    if steps == [] then st else After(hash, Do(hash, st, steps[0]), steps[1..])
  }

  lemma StepKeepsInv(hash: string -> int, st: State, step: Step)
    requires Inv(hash, st) && Enabled(hash, st, step)
    ensures Inv(hash, Do(hash, st, step))
  {
    match step
    case Begin(s, d) => BeginKeepsInv(hash, st, s, d);
    case Lose(i) => LoseKeepsInv(hash, st, i);
    case Run(i) =>
      if st.txns[i].phase.pc.AtCommit? {
        CommitKeepsInv(hash, st, i);
      } else {
        AdvanceKeepsInv(hash, st, i);
      }
  }

  lemma {:induction false} RunKeepsInv(hash: string -> int, st: State, steps: seq<Step>)
    requires Inv(hash, st) && CanTake(hash, st, steps)
    ensures Inv(hash, After(hash, st, steps))
    decreases |steps|
  {
    if steps != [] {
      StepKeepsInv(hash, st, steps[0]);
      RunKeepsInv(hash, Do(hash, st, steps[0]), steps[1..]);
    }
  }

  /** Whatever the interleaving, the committed tables are those of running the
      committed requests one at a time in commit order, and they represent the log. */
  lemma {:induction false} Serializable(hash: string -> int, steps: seq<Step>)
    requires CanTake(hash, INITIAL, steps)
    ensures var st := After(hash, INITIAL, steps);
      Inv(hash, st) && Replay(st.log) == Some(st.db) && Represents(st.db, Submissions(st.log))
  {
    RunKeepsInv(hash, INITIAL, steps);
  }
}
