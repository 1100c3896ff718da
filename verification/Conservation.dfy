/** What every reachable store conserves. */
module Conservation {
  import opened Wrappers
  import opened Evidence
  import opened Tables
  import opened Log
  import opened Queries
  import opened Counting
  import opened Aggregates
  import opened Concurrency
  import opened History

  // ---- One attestation, one run, one submission row ----

  ghost function AttestationIds(db: Tables): set<nat> {
    set id | id in db.attestations :: db.attestations[id].id
  }

  lemma KeysAgree(db: Tables, log: seq<Submission>)
    requires AllOwned(db) && AllStored(db, log)
    ensures db.runs.Keys == AttestationIds(db) && db.submissions.Keys == AttestationIds(db)
    ensures db.identities.Keys <= AttestationIds(db)
  {
    forall n | n in db.runs || n in db.submissions || n in db.identities
      ensures n in AttestationIds(db)
    {
      assert Owned(db, n);
    }
    forall id | id in db.attestations
      ensures db.attestations[id].id in db.runs && db.attestations[id].id in db.submissions
    {
      assert Stored(db, log, id);
    }
  }

  lemma IdsMatch(db: Tables)
    requires AttestationIdsUnique(db)
    ensures Matches(db.attestations.Keys, AttestationIds(db), RowId(db))
  {
    forall n | n in AttestationIds(db)
      ensures exists id :: id in db.attestations.Keys && RowId(db)(id) == n
    {
      var id :| id in db.attestations && db.attestations[id].id == n;
      assert RowId(db)(id) == n;
    }
  }

  lemma TransitionsHaveRuns(db: Tables, log: seq<Submission>)
    requires AllStored(db, log) && AllBacked(db, log)
    ensures forall t | t in db.rows && t.TransitionKey? :: EvidenceOf(db, db.rows[t].id) != {}
  {
    forall t | t in db.rows && t.TransitionKey?
      ensures EvidenceOf(db, db.rows[t].id) != {}
    {
      TransitionHasRun(db, log, t);
    }
  }

  /** Attestations, runs and submission rows correspond one to one; identities and
      findings belong to them; and every transition has a run. */
  lemma OneToOne(db: Tables, log: seq<Submission>)
    requires Represents(db, log)
    ensures db.runs.Keys == AttestationIds(db) && db.submissions.Keys == AttestationIds(db)
    ensures |db.attestations.Keys| == |db.runs.Keys| == |db.submissions.Keys|
    ensures db.identities.Keys <= AttestationIds(db)
    ensures FindingsOwned(db)
    ensures forall t | t in db.rows && t.TransitionKey? :: EvidenceOf(db, db.rows[t].id) != {}
  {
    KeysAgree(db, log);
    IdsMatch(db);
    MatchesCount(db.attestations.Keys, AttestationIds(db), RowId(db));
    TransitionsHaveRuns(db, log);
  }

  lemma TransitionHasRun(db: Tables, log: seq<Submission>, t: Key)
    requires AllStored(db, log) && AllBacked(db, log) && t in db.rows && t.TransitionKey?
    ensures EvidenceOf(db, db.rows[t].id) != {}
  {
    assert Backed(db, log, t);
    var id := BackedBy(db, log, t);
    StoredIsLinked(db, log, id);
    assert id in EvidenceOf(db, db.rows[t].id);
  }

  // ---- submission_count adds up to the log ----

  /** The accepted submissions, each with its place in the log. */
  ghost function Placed(log: seq<Submission>): set<(nat, Submission)> {
    set i: nat | i < |log| :: (i, log[i])
  }

  function PlacedId(entry: (nat, Submission)): string {
    entry.1.id
  }

  lemma PlacedAppend(log: seq<Submission>)
    requires log != []
    ensures var n := |log| - 1;
      Placed(log) == Placed(log[..n]) + {(n, log[n])} && (n, log[n]) !in Placed(log[..n])
  {
    var n: nat := |log| - 1;
    forall entry | entry in Placed(log)
      ensures entry in Placed(log[..n]) + {(n, log[n])}
    {
      if entry.0 < n {
        assert log[..n][entry.0] == log[entry.0];
      }
    }
    forall entry | entry in Placed(log[..n])
      ensures entry in Placed(log)
    {
      assert log[..n][entry.0] == log[entry.0];
    }
  }

  lemma {:induction false} CountIsClass(log: seq<Submission>, id: string)
    ensures Count(log, id) == |Class(Placed(log), PlacedId, id)|
  {
    if log == [] {
      assert Class(Placed(log), PlacedId, id) == {};
    } else {
      var n: nat := |log| - 1;
      CountIsClass(log[..n], id);
      PlacedAppend(log);
      var last := if log[n].id == id then {(n, log[n])} else {};
      assert Class(Placed(log), PlacedId, id) == Class(Placed(log[..n]), PlacedId, id) + last;
    }
  }

  lemma {:induction false} PlacedCount(log: seq<Submission>)
    ensures |Placed(log)| == |log|
  {
    if log == [] {
      assert Placed(log) == {};
    } else {
      PlacedCount(log[..|log| - 1]);
      PlacedAppend(log);
    }
  }

  /** The sum of submission_count is the number of accepted submissions. */
  lemma SubmissionsTotal(db: Tables, log: seq<Submission>)
    requires Represents(db, log)
    ensures Total(db.submissions) == |log|
  {
    var sizes := Sizes(Placed(log), PlacedId, db.attestations.Keys);
    forall entry | entry in Placed(log)
      ensures PlacedId(entry) in db.attestations.Keys
    {
      SeenIf(log, entry.0);
    }
    ClassesTotal(Placed(log), PlacedId, db.attestations.Keys);
    PlacedCount(log);
    forall id | id in db.attestations
      ensures RowId(db)(id) in db.submissions && db.submissions[RowId(db)(id)] == sizes[id]
    {
      assert Stored(db, log, id);
      CountIsClass(log, id);
    }
    KeysAgree(db, log);
    IdsMatch(db);
    TotalRename(sizes, db.submissions, RowId(db));
  }

  /** Over every run, it is the number of transactions that committed. */
  lemma {:induction false} SubmissionsOfRun(hash: string -> int, steps: seq<Step>)
    requires CanTake(hash, INITIAL, steps)
    ensures var st := After(hash, INITIAL, steps);
      Total(st.db.submissions) == |set i | 0 <= i < |st.txns| && st.txns[i].phase.Committed?|
  {
    var st := After(hash, INITIAL, steps);
    RunKeepsInv(hash, INITIAL, steps);
    AcceptedAreCounted(st);
    SubmissionsTotal(st.db, Submissions(st.log));
  }

  // ---- The behaviour groups add up to findings, not to runs ----

  /** behavior_findings.kind; the other two tables have no such column. */
  function KindOf(f: Finding): Option<string> {
    match f
    case FilesystemPath(_, _) => Some("FILESYSTEM_PATH")
    case ProcessPattern(_) => Some("PROCESS_PATTERN")
    case _ => None
  }

  /** Each behaviour finding, by its position, with every run of the transition that it refers to. */
  ghost function BehaviorRows(db: Tables, transition: nat): set<(nat, nat)> {
    set i: nat, n | n in RunsOf(db, transition) && i < |db.findings| && KindOf(db.findings[i].finding).Some? &&
      db.findings[i].runId == db.runs[n].id :: (i, n)
  }

  ghost function KindIn(db: Tables): ((nat, nat)) -> Option<string> {
    (row: (nat, nat)) => if row.0 < |db.findings| then KindOf(db.findings[row.0].finding) else None
  }

  function RunAttestation(row: (nat, nat)): nat {
    row.1
  }

  function FindingIndex(row: (nat, nat)): nat {
    row.0
  }

  /** How many findings of a kind one submission brings. */
  function KindSize(o: Observed, kind: string): nat {
    if kind == "FILESYSTEM_PATH" then |o.files| else if kind == "PROCESS_PATTERN" then |o.processes| else 0
  }

  ghost function LogKindSizes(log: seq<Submission>, ids: set<string>, kind: string): map<string, nat>
    requires forall id | id in ids :: Seen(log, id)
  {
    map id | id in ids :: KindSize(First(log, id).observed, kind)
  }

  function CountKind(f: seq<FindingRow>, kind: string): nat {
    if f == [] then 0
    else CountKind(f[..|f| - 1], kind) + if KindOf(f[|f| - 1].finding) == Some(kind) then 1 else 0
  }

  lemma {:induction false} CountKindConcat(f: seq<FindingRow>, g: seq<FindingRow>, kind: string)
    ensures CountKind(f + g, kind) == CountKind(f, kind) + CountKind(g, kind)
  {
    if g == [] {
      assert f + g == f;
    } else {
      assert (f + g)[..|f + g| - 1] == f + g[..|g| - 1];
      CountKindConcat(f, g[..|g| - 1], kind);
    }
  }

  lemma {:induction false} CountKindUniform(f: seq<FindingRow>, kind: string, of: Option<string>)
    requires forall i | 0 <= i < |f| :: KindOf(f[i].finding) == of
    ensures CountKind(f, kind) == if of == Some(kind) then |f| else 0
  {
    if f != [] {
      CountKindUniform(f[..|f| - 1], kind, of);
    }
  }

  lemma {:induction false} SecurityKinds(runId: nat, sources: seq<PublicIntelligence>)
    ensures forall i | 0 <= i < |SecurityRows(runId, sources)| ::
        KindOf(SecurityRows(runId, sources)[i].finding) == None
  {
    if sources != [] {
      SecurityKinds(runId, sources[..|sources| - 1]);
    }
  }

  lemma CountKindOfRun(runId: nat, o: Observed, kind: string)
    ensures CountKind(FindingRows(runId, o), kind) == KindSize(o, kind)
  {
    var files := FileRows(runId, o.files);
    var processes := ProcessRows(runId, o.processes);
    var policy := PolicyRows(runId, o.policy);
    var security := SecurityRows(runId, o.sources);
    CountKindUniform(files, kind, Some("FILESYSTEM_PATH"));
    CountKindUniform(processes, kind, Some("PROCESS_PATTERN"));
    CountKindUniform(policy, kind, None);
    SecurityKinds(runId, o.sources);
    CountKindUniform(security, kind, None);
    CountKindConcat(files, processes, kind);
    CountKindConcat(files + processes, policy, kind);
    CountKindConcat(files + processes + policy, security, kind);
  }

  ghost function KindPositions(f: seq<FindingRow>, runId: nat, kind: string): set<nat> {
    set i: nat | i < |f| && f[i].runId == runId && KindOf(f[i].finding) == Some(kind)
  }

  lemma {:induction false} KindPositionsCount(f: seq<FindingRow>, runId: nat, kind: string)
    ensures |KindPositions(f, runId, kind)| == CountKind(FindingsOf(f, runId), kind)
  {
    if f != [] {
      var n: nat := |f| - 1;
      KindPositionsCount(f[..n], runId, kind);
      var earlier := FindingsOf(f[..n], runId);
      assert (earlier + [f[n]])[..|earlier|] == earlier;
      var last := if f[n].runId == runId && KindOf(f[n].finding) == Some(kind) then {n} else {};
      assert KindPositions(f, runId, kind) == KindPositions(f[..n], runId, kind) + last;
    }
  }

  /** One run's share of the joined rows of a kind is what its submission brought. */
  lemma RunShare(db: Tables, log: seq<Submission>, transition: nat, kind: string, id: string)
    requires AllStored(db, log) && id in EvidenceOf(db, transition)
    ensures Seen(log, id)
    ensures |Class(Class(BehaviorRows(db, transition), KindIn(db), Some(kind)), RunAttestation,
        db.attestations[id].id)| ==
            KindSize(First(log, id).observed, kind)
  {
    assert Stored(db, log, id);
    var n := db.attestations[id].id;
    var rows := Class(Class(BehaviorRows(db, transition), KindIn(db), Some(kind)), RunAttestation, n);
    var positions := KindPositions(db.findings, db.runs[n].id, kind);
    forall i | i in positions
      ensures (i, n) in rows && FindingIndex((i, n)) == i
    {
      assert (i, n) in BehaviorRows(db, transition);
    }
    assert Matches(rows, positions, FindingIndex);
    MatchesCount(rows, positions, FindingIndex);
    KindPositionsCount(db.findings, db.runs[n].id, kind);
    CountKindOfRun(db.runs[n].id, First(log, id).observed, kind);
  }

  lemma SharesMatch(db: Tables, log: seq<Submission>, transition: nat, kind: string, rows: set<(nat, nat)>)
    requires AttestationIdsUnique(db) && AllOwned(db) && AllStored(db, log)
    requires rows == Class(BehaviorRows(db, transition), KindIn(db), Some(kind))
    ensures forall id | id in EvidenceOf(db, transition) :: Seen(log, id)
    ensures Total(Sizes(rows, RunAttestation, RunsOf(db, transition))) ==
            Total(LogKindSizes(log, EvidenceOf(db, transition), kind))
  {
    RunsMatch(db, transition);
    forall id | id in EvidenceOf(db, transition)
      ensures Seen(log, id)
      ensures |Class(rows, RunAttestation, RowId(db)(id))| == KindSize(First(log, id).observed, kind)
    {
      RunShare(db, log, transition, kind, id);
    }
    TotalRename(LogKindSizes(log, EvidenceOf(db, transition), kind),
        Sizes(rows, RunAttestation, RunsOf(db, transition)), RowId(db));
  }

  /** Each behaviour group counts the findings of its kind in the accepted evidence. */
  lemma BehaviorConserved(db: Tables, log: seq<Submission>, transition: nat, kind: string)
    requires Represents(db, log)
    ensures forall id | id in EvidenceOf(db, transition) :: Seen(log, id)
    ensures |Class(BehaviorRows(db, transition), KindIn(db), Some(kind))| ==
            Total(LogKindSizes(log, EvidenceOf(db, transition), kind))
  {
    var rows := Class(BehaviorRows(db, transition), KindIn(db), Some(kind));
    ClassesTotal(rows, RunAttestation, RunsOf(db, transition));
    SharesMatch(db, log, transition, kind, rows);
  }

  lemma KindsDivide(db: Tables, transition: nat)
    ensures var rows := BehaviorRows(db, transition);
      |rows| == |Class(rows, KindIn(db), Some("FILESYSTEM_PATH"))| + |Class(rows, KindIn(db), Some("PROCESS_PATTERN"))|
  {
    var rows := BehaviorRows(db, transition);
    var files := Class(rows, KindIn(db), Some("FILESYSTEM_PATH"));
    var processes := Class(rows, KindIn(db), Some("PROCESS_PATTERN"));
    assert rows == files + processes;
    assert files !! processes;
  }

  /** All behaviour groups together count every joined finding once. */
  lemma BehaviorGroupsTotal(db: Tables, log: seq<Submission>, transition: nat)
    requires Represents(db, log)
    ensures forall id | id in EvidenceOf(db, transition) :: Seen(log, id)
    ensures Total(Groups(BehaviorRows(db, transition), KindIn(db))) ==
      Total(LogKindSizes(log, EvidenceOf(db, transition), "FILESYSTEM_PATH")) +
      Total(LogKindSizes(log, EvidenceOf(db, transition), "PROCESS_PATTERN"))
  {
    GroupsTotal(BehaviorRows(db, transition), KindIn(db));
    KindsDivide(db, transition);
    BehaviorConserved(db, log, transition, "FILESYSTEM_PATH");
    BehaviorConserved(db, log, transition, "PROCESS_PATTERN");
  }
}
