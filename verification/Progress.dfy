/** No interleaving of `persist` transactions can deadlock: whoever waits, waits for
    a transaction that is further along, so some unfinished one can always run. */
module Progress {
  import opened Tables
  import opened Persist
  import opened Log
  import opened Commit
  import opened Concurrency

  /** How many upserts are behind a transaction with a new id. */
  function UpsertsDone(pc: Pc): nat {
    if pc.AtLock? || pc.AtFind? then 0 else if pc.AtUpsert? && pc.k < UPSERTS then pc.k else UPSERTS
  }

  /** The rows and ids of a transaction in flight are those of its upserts so far. */
  lemma WorkRows(db: Tables, s: Submission, d: Draws, pc: Pc)
    requires d.Valid() && OnPath(db, s, pc) && s.id !in db.attestations
    ensures WorkAt(db, s, d, pc).delta.rows == UpsertsAt(db.rows, s, d, UpsertsDone(pc)).rows
    ensures pc.AtUpsert? ==> WorkAt(db, s, d, pc).ids == UpsertsAt(db.rows, s, d, pc.k).ids
  {
    if UpsertsDone(pc) == UPSERTS {
      InsertRows(UpsertsAt(db.rows, s, d, UPSERTS), s, d, pc);
    }
  }

  /** Every row written is the target of an upsert already run. */
  lemma {:induction false} RowIsTarget(base: map<Key, Row>, s: Submission, d: Draws, k: nat, key: Key) returns (m: nat)
    requires d.Valid() && k <= UPSERTS && key in UpsertsAt(base, s, d, k).rows
    ensures m < k && key == KeyAt(s, UpsertsAt(base, s, d, k).ids, m)
  {
    var before := UpsertsAt(base, s, d, k - 1);
    if key == KeyAt(s, before.ids, k - 1) {
      m := k - 1;
    } else {
      m := RowIsTarget(base, s, d, k - 1, key);
    }
  }

  /** The package row is locked, and its id known, from the second upsert on. */
  lemma {:induction false} PackageUpsert(base: map<Key, Row>, s: Submission, d: Draws, k: nat)
    requires d.Valid() && 2 <= k <= UPSERTS
    ensures var u := UpsertsAt(base, s, d, k);
      s.Package() in u.rows && u.ids[1] == if s.Package() in base then base[s.Package()].id else d.upserts[1]
  {
    if k == 2 {
      assert UpsertsAt(base, s, d, 0).rows == map[];
      assert UpsertsAt(base, s, d, 1).rows.Keys == {SignerKey(s.keyId)};
    } else {
      PackageUpsert(base, s, d, k - 1);
    }
  }

  /** Two transactions that both hold their package rows have different package ids,
      and so never meet on a version or a transition. */
  lemma PackagesApart(db: Tables, s: Submission, d: Draws, k: nat, t: Submission, e: Draws, m: nat)
    requires IdsUnique(db.rows) && Fresh(db, d) && Fresh(db, e) && DrawsApart(d, e)
    requires 2 <= k <= UPSERTS && 2 <= m <= UPSERTS && s.Package() != t.Package()
    ensures UpsertsAt(db.rows, s, d, k).ids[1] != UpsertsAt(db.rows, t, e, m).ids[1]
  {
    PackageUpsert(db.rows, s, d, k);
    PackageUpsert(db.rows, t, e, m);
  }

  lemma HolderIsNew(hash: string -> int, db: Tables, u: Txn, key: Key)
    requires TxnSound(hash, db, u) && RowLock(key) in u.held
    ensures u.phase.Running? && u.s.id !in db.attestations
    ensures key in UpsertsAt(db.rows, u.s, u.d, UpsertsDone(u.phase.pc)).rows
  {
    assert key in u.phase.work.delta.rows;
    if u.s.id !in db.attestations {
      WorkRows(db, u.s, u.d, u.phase.pc);
    }
  }

  /** Only the two version upserts, of all, write to one table. */
  lemma SameTarget(s: Submission, ids: seq<nat>, k: nat, t: Submission, others: seq<nat>, m: nat)
    requires s.WellTyped() && t.WellTyped() && k < UPSERTS && m < k && |ids| >= k && |others| >= m
    requires KeyAt(s, ids, k) == KeyAt(t, others, m)
    ensures k == 3 && m == 2 && ids[1] == others[1]
  {
  }

  /** Two transactions past their package rows do not meet on a key unless the
      package is one. */
  lemma NoMeeting(db: Tables, s: Submission, d: Draws, k: nat, t: Submission, e: Draws, n: nat, m: nat)
    requires IdsUnique(db.rows) && Fresh(db, d) && Fresh(db, e) && DrawsApart(d, e) && s.WellTyped() && t.WellTyped()
    requires k < UPSERTS && m < n <= UPSERTS && m < k
    requires KeyAt(s, UpsertsAt(db.rows, s, d, k).ids, k) == KeyAt(t, UpsertsAt(db.rows, t, e, n).ids, m)
    ensures s.Package() == t.Package() && k >= 2 && n >= 2
  {
    SameTarget(s, UpsertsAt(db.rows, s, d, k).ids, k, t, UpsertsAt(db.rows, t, e, n).ids, m);
    if s.Package() != t.Package() {
      PackagesApart(db, s, d, k, t, e, n);
    }
  }

  /** A transaction at upsert `k` waits only for one that is past its own upsert `k`. */
  lemma RowWaitRises(hash: string -> int, db: Tables, t: Txn, u: Txn)
    requires IdsUnique(db.rows) && TxnSound(hash, db, t) && TxnSound(hash, db, u)
    requires t.phase.Running? && t.phase.pc.AtUpsert? && t.held !! u.held
    requires u.phase.Running? ==> DrawsApart(t.d, u.d)
    requires RowLock(KeyAt(t.s, t.phase.work.ids, t.phase.pc.k)) in u.held
    ensures u.phase.Running? && Rank(t.phase.pc) < Rank(u.phase.pc)
  {
    var k := t.phase.pc.k;
    var key := KeyAt(t.s, t.phase.work.ids, k);
    HolderIsNew(hash, db, u, key);
    WorkRows(db, t.s, t.d, t.phase.pc);
    var n := UpsertsDone(u.phase.pc);
    var m := RowIsTarget(db.rows, u.s, u.d, n, key);
    if m < k {
      NoMeeting(db, t.s, t.d, k, u.s, u.d, n, m);
      PackageIsHeld(hash, db, t);
      PackageIsHeld(hash, db, u);
    }
  }

  lemma PackageIsHeld(hash: string -> int, db: Tables, t: Txn)
    requires TxnSound(hash, db, t) && t.phase.Running? && t.s.id !in db.attestations && UpsertsDone(t.phase.pc) >= 2
    ensures RowLock(t.s.Package()) in t.held
  {
    WorkRows(db, t.s, t.d, t.phase.pc);
    PackageUpsert(db.rows, t.s, t.d, UpsertsDone(t.phase.pc));
  }

  /** Along the wait-for graph, the statement reached strictly increases. */
  lemma WaitRises(hash: string -> int, st: State, i: nat, j: nat)
    requires Inv(hash, st) && WaitsFor(hash, st, i, j)
    ensures IsRunning(st, j) && Rank(st.txns[i].phase.pc) < Rank(st.txns[j].phase.pc)
  {
    assert TxnSound(hash, st.db, st.txns[i]) && TxnSound(hash, st.db, st.txns[j]) && Apart(st, i, j);
    if st.txns[i].phase.pc.AtUpsert? {
      RowWaitRises(hash, st.db, st.txns[i], st.txns[j]);
    }
  }

  /** A walk in the wait-for graph. */
  predicate Walk(hash: string -> int, st: State, path: seq<nat>) {
    forall n | 0 <= n < |path| - 1 :: WaitsFor(hash, st, path[n], path[n + 1])
  }

  lemma {:induction false} WalkRises(hash: string -> int, st: State, path: seq<nat>)
    requires Inv(hash, st) && |path| >= 2 && Walk(hash, st, path)
    ensures IsRunning(st, path[0]) && IsRunning(st, path[|path| - 1])
    ensures Rank(st.txns[path[0]].phase.pc) < Rank(st.txns[path[|path| - 1]].phase.pc)
    decreases |path|
  {
    var last := |path| - 1;
    assert WaitsFor(hash, st, path[last - 1], path[last - 1 + 1]);
    WaitRises(hash, st, path[last - 1], path[last]);
    if |path| > 2 {
      var init := path[..last];
      assert forall n | 0 <= n < |init| - 1 :: WaitsFor(hash, st, init[n], init[n + 1]) by {
        forall n | 0 <= n < |init| - 1
          ensures WaitsFor(hash, st, init[n], init[n + 1])
        {
          assert WaitsFor(hash, st, path[n], path[n + 1]);
        }
      }
      WalkRises(hash, st, init);
    }
  }

  /** The wait-for graph of every reachable state is acyclic: there is no deadlock. */
  lemma {:induction false} NoDeadlock(hash: string -> int, steps: seq<Step>, path: seq<nat>)
    requires CanTake(hash, INITIAL, steps)
    requires |path| >= 2 && Walk(hash, After(hash, INITIAL, steps), path)
    ensures path[0] != path[|path| - 1]
  {
    RunKeepsInv(hash, INITIAL, steps);
    WalkRises(hash, After(hash, INITIAL, steps), path);
  }

  /** A running transaction that is furthest along is not blocked. */
  lemma {:induction false} FurthestRuns(hash: string -> int, st: State, i: nat)
    returns (j: nat)
    requires Inv(hash, st) && IsRunning(st, i)
    ensures Enabled(hash, st, Run(j))
    decreases COMMIT_RANK - Rank(st.txns[i].phase.pc)
  {
    assert TxnSound(hash, st.db, st.txns[i]);
    if Blocked(hash, st, i) {
      var k :| 0 <= k < |st.txns| && WaitsFor(hash, st, i, k);
      WaitRises(hash, st, i, k);
      j := FurthestRuns(hash, st, k);
    } else {
      j := i;
    }
  }

  // ---- Every run without new requests ends, with every transaction finished ----

  /** How many statements the transactions in flight can still run. */
  function Left(t: Txn): nat {
    if t.phase.Running? then COMMIT_RANK + 1 - Rank(t.phase.pc) else 0
  }

  function TotalLeft(txns: seq<Txn>): nat {
    if txns == [] then 0 else TotalLeft(txns[..|txns| - 1]) + Left(txns[|txns| - 1])
  }

  lemma {:induction false} TotalLeftUpdate(txns: seq<Txn>, i: nat, t: Txn)
    requires i < |txns|
    ensures TotalLeft(txns[i := t]) == TotalLeft(txns) - Left(txns[i]) + Left(t)
  {
    var n := |txns| - 1;
    if i < n {
      assert txns[i := t][..n] == txns[..n][i := t];
      TotalLeftUpdate(txns[..n], i, t);
    } else {
      assert txns[i := t][..n] == txns[..n];
    }
  }

  lemma {:induction false} NothingLeft(txns: seq<Txn>, i: nat)
    requires TotalLeft(txns) == 0 && i < |txns|
    ensures !txns[i].phase.Running?
  {
    if i < |txns| - 1 {
      NothingLeft(txns[..|txns| - 1], i);
    }
  }

  /** Every statement, and every lost connection, brings the end closer. */
  lemma StepProgresses(hash: string -> int, st: State, step: Step)
    requires Inv(hash, st) && Enabled(hash, st, step) && !step.Begin?
    ensures TotalLeft(Do(hash, st, step).txns) < TotalLeft(st.txns)
  {
    var i := step.i;
    assert TxnSound(hash, st.db, st.txns[i]);
    FreshMeets(hash, st, i);
    TotalLeftUpdate(st.txns, i, Do(hash, st, step).txns[i]);
    if step.Run? && !st.txns[i].phase.pc.AtCommit? {
      StatementKeepsShape(st.db, st.txns[i].s, st.txns[i].d, st.txns[i].phase.pc);
    }
  }

  lemma FreshMeets(hash: string -> int, st: State, i: nat)
    requires Inv(hash, st) && IsRunning(st, i)
    ensures FreshAttestation(st.db, st.txns[i].d)
  {
    assert TxnSound(hash, st.db, st.txns[i]);
    FreshMeetsNothing(st.db, Submissions(st.log), st.txns[i].d);
  }

  // ---- How each transaction ends ----

  /** The log has accepted this very bundle for the id, or there is none to accept. */
  predicate ProofStands(log: seq<Submission>, s: Submission) {
    s.proof.None? || (Bound(log, s.id).Some? && Bound(log, s.id).value.bundleDigest == s.proof.value.bundleDigest)
  }

  /** The log has accepted another bundle for the id. */
  predicate ProofFails(log: seq<Submission>, s: Submission) {
    s.proof.Some? && Bound(log, s.id).Some? && Bound(log, s.id).value.bundleDigest != s.proof.value.bundleDigest
  }

  /** A transaction that has ended is committed with its proof standing, or rolled
      back because another bundle is bound. */
  predicate EndsRight(log: seq<Submission>, t: Txn) {
    match t.phase
    case Running(_, _) => true
    case Committed(_) => ProofStands(log, t.s)
    case RolledBack => ProofFails(log, t.s)
  }

  lemma EndStays(log: seq<Submission>, later: seq<Submission>, t: Txn)
    requires log <= later && EndsRight(log, t)
    ensures EndsRight(later, t)
  {
    if Bound(log, t.s.id).Some? {
      BoundStays(log, later, t.s.id);
    }
  }

  lemma CommitStands(db: Tables, log: seq<Submission>, s: Submission)
    requires AllStored(db, log) && !Conflict(db, s)
    ensures ProofStands(log + [s], s)
  {
    ConflictIsInLog(db, log, s);
    Append(log, s, s.id);
  }

  /** The statement that ends a transaction ends it right. */
  lemma StatementEndsRight(hash: string -> int, st: State, i: nat)
    requires Inv(hash, st) && Enabled(hash, st, Run(i))
    ensures var st' := Do(hash, st, Run(i));
      EndsRight(Submissions(st'.log), st'.txns[i]) && Submissions(st.log) <= Submissions(st'.log)
  {
    var t := st.txns[i];
    var log := Submissions(st.log);
    assert TxnSound(hash, st.db, t);
    if t.phase.pc.AtCommit? {
      CommitStands(st.db, log, t.s);
      SubmissionsAppend(st.log, Entry(i, t.s, t.d, t.phase.pc.duplicate));
    } else {
      FreshMeets(hash, st, i);
      StatementKeepsShape(st.db, t.s, t.d, t.phase.pc);
      ConflictIsInLog(st.db, log, t.s);
    }
  }

  /** Every transaction that was running or had ended right is running or ends right later. */
  predicate KeepsEnds(st: State, later: State) {
    && |later.txns| == |st.txns|
    && forall i | 0 <= i < |st.txns| && EndsRight(Submissions(st.log), st.txns[i]) ::
         EndsRight(Submissions(later.log), later.txns[i])
  }

  lemma StepEndsRight(hash: string -> int, st: State, j: nat)
    requires Inv(hash, st) && Enabled(hash, st, Run(j))
    ensures KeepsEnds(st, Do(hash, st, Run(j)))
  {
    var next := Do(hash, st, Run(j));
    StatementEndsRight(hash, st, j);
    forall k | 0 <= k < |st.txns| && EndsRight(Submissions(st.log), st.txns[k])
      ensures EndsRight(Submissions(next.log), next.txns[k])
    {
      if k != j {
        EndStays(Submissions(st.log), Submissions(next.log), st.txns[k]);
      }
    }
  }

  /** From every reachable state, running statements alone finishes every
      transaction: each commits, with its proof, if it brought one, the one that is
      bound to its id, or is rolled back because another bundle is. */
  lemma {:induction false} AllFinish(hash: string -> int, st: State) returns (steps: seq<Step>)
    requires Inv(hash, st)
    ensures CanTake(hash, st, steps) && (forall n | 0 <= n < |steps| :: steps[n].Run?)
    ensures forall i: nat :: !IsRunning(After(hash, st, steps), i)
    ensures KeepsEnds(st, After(hash, st, steps))
    decreases TotalLeft(st.txns)
  {
    if i: nat :| IsRunning(st, i) {
      var j := FurthestRuns(hash, st, i);
      StepProgresses(hash, st, Run(j));
      StepKeepsInv(hash, st, Run(j));
      StepEndsRight(hash, st, j);
      var rest := AllFinish(hash, Do(hash, st, Run(j)));
      steps := [Run(j)] + rest;
      assert steps[1..] == rest;
    } else {
      steps := [];
    }
  }

  // ---- A request can always begin ----

  lemma {:induction false} UpperBound(used: set<nat>) returns (n: nat)
    ensures forall x | x in used :: x < n
  {
    if x :| x in used {
      var m := UpperBound(used - {x});
      n := if m > x then m else x + 1;
      assert used == (used - {x}) + {x};
    } else {
      n := 0;
    }
  }

  function DrawnBy(d: Draws): set<nat> {
    (set k | 0 <= k < |d.upserts| :: d.upserts[k]) + {d.attestation, d.run}
  }

  function InUse(st: State): set<nat> {
    (set key | key in st.db.rows :: st.db.rows[key].id) + (set id | id in st.db.attestations ::
        st.db.attestations[id].id) +
    (set n | n in st.db.runs :: st.db.runs[n].id) +
    set i, x | 0 <= i < |st.txns| && x in DrawnBy(st.txns[i].d) :: x
  }

  /** There are always values that no row and no running transaction has, so an
      admissible request can begin in every reachable state. */
  lemma CanBegin(hash: string -> int, st: State, s: Submission) returns (d: Draws)
    requires Inv(hash, st) && Admissible(s)
    ensures Enabled(hash, st, Begin(s, d))
  {
    var n := UpperBound(InUse(st));
    d := Draws([n, n, n, n + 1, n, n, n], n, n);
    forall i: nat | IsRunning(st, i)
      ensures st.txns[i].d.Valid() && DrawsApart(d, st.txns[i].d)
    {
      assert TxnSound(hash, st.db, st.txns[i]);
      forall x | x in DrawnBy(st.txns[i].d)
        ensures x < n
      {
        assert x in InUse(st);
      }
      ApartAbove(d, st.txns[i].d, n);
    }
    FreshAbove(st, d, n);
  }

  lemma ApartAbove(d: Draws, e: Draws, n: nat)
    requires d == Draws([n, n, n, n + 1, n, n, n], n, n) && e.Valid() && forall x | x in DrawnBy(e) :: x < n
    ensures DrawsApart(d, e)
  {
    assert e.attestation in DrawnBy(e) && e.run in DrawnBy(e);
    forall k | 0 <= k < UPSERTS
      ensures e.upserts[k] < n
    {
      assert e.upserts[k] in DrawnBy(e);
    }
  }

  lemma FreshAbove(st: State, d: Draws, n: nat)
    requires d == Draws([n, n, n, n + 1, n, n, n], n, n) && forall x | x in InUse(st) :: x < n
    ensures Fresh(st.db, d)
  {
    forall key | key in st.db.rows
      ensures st.db.rows[key].id < n
    {
      assert st.db.rows[key].id in InUse(st);
    }
    forall id | id in st.db.attestations
      ensures st.db.attestations[id].id < n
    {
      assert st.db.attestations[id].id in InUse(st);
    }
    forall m | m in st.db.runs
      ensures st.db.runs[m].id < n
    {
      assert st.db.runs[m].id in InUse(st);
    }
  }
}
