/** The plain log of accepted submissions, and what it means for the tables to
    represent one. */
module Log {
  import opened Wrappers
  import opened Evidence
  import opened Tables
  import opened Persist

  // ---- Scanning the log ----

  predicate Seen(log: seq<Submission>, id: string) {
    log != [] && (log[|log| - 1].id == id || Seen(log[..|log| - 1], id))
  }

  /** The submission that an id was accepted with. */
  function First(log: seq<Submission>, id: string): (s: Submission)
    requires Seen(log, id)
    ensures s.id == id && s in log
  {
    if Seen(log[..|log| - 1], id) then First(log[..|log| - 1], id) else log[|log| - 1]
  }

  function Count(log: seq<Submission>, id: string): nat {
    if log == [] then 0
    else Count(log[..|log| - 1], id) + if log[|log| - 1].id == id then 1 else 0
  }

  /** The first proof that was accepted for an id. */
  function Bound(log: seq<Submission>, id: string): Option<Binding> {
    if log == [] then None
    else
      var earlier := Bound(log[..|log| - 1], id);
      if earlier.Some? then earlier
      else if log[|log| - 1].id == id then log[|log| - 1].proof
      else None
  }

  /** Appending one submission, in terms of the log before it. */
  lemma Append(log: seq<Submission>, s: Submission, id: string)
    ensures Seen(log + [s], id) <==> Seen(log, id) || s.id == id
    ensures Seen(log, id) ==> First(log + [s], id) == First(log, id)
    ensures !Seen(log, id) && s.id == id ==> First(log + [s], id) == s
    ensures Count(log + [s], id) == Count(log, id) + if s.id == id then 1 else 0
    ensures Bound(log + [s], id) ==
      if Bound(log, id).Some? then Bound(log, id) else if s.id == id then s.proof else None
  {
    assert (log + [s])[..|log|] == log;
  }

  /** A longer log says the same of an id it had already, but may have a proof for it. */
  lemma {:induction false} LongerLog(log: seq<Submission>, later: seq<Submission>, id: string)
    requires log <= later && Seen(log, id)
    ensures Seen(later, id) && First(later, id) == First(log, id)
    ensures Bound(log, id).Some? ==> Bound(later, id) == Bound(log, id)
    decreases |later|
  {
    if |log| < |later| {
      var init := later[..|later| - 1];
      assert log <= init;
      LongerLog(log, init, id);
    } else {
      assert log == later;
    }
  }

  /** A proof that was accepted first stays the one that counts. */
  lemma {:induction false} BoundStays(log: seq<Submission>, later: seq<Submission>, id: string)
    requires log <= later && Bound(log, id).Some?
    ensures Bound(later, id) == Bound(log, id)
    decreases |later|
  {
    if |log| < |later| {
      BoundStays(log, later[..|later| - 1], id);
    } else {
      assert log == later;
    }
  }

  lemma {:induction log} UnseenIsEmpty(log: seq<Submission>, id: string)
    requires !Seen(log, id)
    ensures Count(log, id) == 0 && Bound(log, id) == None
  {
  }

  // ---- Tables ----

  function TableOf(key: Key): nat {
    match key
    case SignerKey(_) => 0
    case PackageKey(_, _) => 1
    case VersionKey(_, _) => 2
    case TransitionKey(_, _, _) => 3
    case EnvironmentKey(_, _, _, _, _) => 4
    case MethodologyKey(_) => 5
  }

  /** The table that upsert `k` writes to. */
  function TableAt(k: nat): nat {
    if k <= 2 then k else k - 1
  }

  /** Primary keys: no two rows of one table share an id. */
  ghost predicate IdsUnique(rows: map<Key, Row>) {
    forall k1, k2 | k1 in rows && k2 in rows && TableOf(k1) == TableOf(k2) && rows[k1].id == rows[k2].id :: k1 == k2
  }

  /** The version row belongs to a package, and its package URL is the one they spell. */
  ghost predicate SpelledBy(rows: map<Key, Row>, v: Key)
    requires v in rows && v.VersionKey?
  {
    exists p :: p in rows && p.PackageKey? && rows[p].id == v.versionPackage &&
      rows[v].purl == PurlOf(p.ecosystem, p.name, v.version)
  }

  ghost predicate PurlsSpelled(rows: map<Key, Row>) {
    && (forall v {:trigger SpelledBy(rows, v)} | v in rows && v.VersionKey? :: SpelledBy(rows, v))
    && (forall key | key in rows && !key.VersionKey? :: rows[key].purl == "")
  }

  /** What ingestion guarantees of a submission before it is persisted. */
  predicate Admissible(s: Submission) {
    s.WellTyped() && SubjectSpelled(s.subject) && s.id != ""
  }

  /** The rows a submission refers to are all there. */
  predicate Linked(rows: map<Key, Row>, s: Submission) {
    && s.WellTyped()
    && SignerKey(s.keyId) in rows
    && s.Package() in rows
    && s.environment in rows
    && s.methodology in rows
    && FromKey(rows, s) in rows
    && ToKey(rows, s) in rows
    && TransitionOf(rows, s) in rows
  }

  function FromKey(rows: map<Key, Row>, s: Submission): Key
    requires s.Package() in rows
  {
    VersionKey(rows[s.Package()].id, s.From())
  }

  function ToKey(rows: map<Key, Row>, s: Submission): Key
    requires s.Package() in rows
  {
    VersionKey(rows[s.Package()].id, s.To())
  }

  function TransitionOf(rows: map<Key, Row>, s: Submission): Key
    requires s.Package() in rows && FromKey(rows, s) in rows && ToKey(rows, s) in rows
  {
    TransitionKey(rows[s.Package()].id, rows[FromKey(rows, s)].id, rows[ToKey(rows, s)].id)
  }

  /** The key is one of the rows the submission refers to. */
  predicate Mentions(rows: map<Key, Row>, s: Submission, key: Key)
    requires Linked(rows, s)
  {
    || key == SignerKey(s.keyId) || key == s.Package() || key == s.environment || key == s.methodology
    || key == FromKey(rows, s) || key == ToKey(rows, s) || key == TransitionOf(rows, s)
  }

  /** The run row of a submission, given its own id. */
  function RunOf(rows: map<Key, Row>, s: Submission, id: nat): RunRow
    requires Linked(rows, s)
  {
    RunRow(id, rows[TransitionOf(rows, s)].id, rows[s.environment].id, rows[s.methodology].id, s.facts)
  }

  function FindingsOf(findings: seq<FindingRow>, runId: nat): seq<FindingRow> {
    if findings == [] then []
    else
      var earlier := FindingsOf(findings[..|findings| - 1], runId);
      var last := findings[|findings| - 1];
      if last.runId == runId then earlier + [last] else earlier
  }

  /** Everything stored for one accepted id. */
  ghost predicate Stored(db: Tables, log: seq<Submission>, id: string)
    requires Seen(log, id) && id in db.attestations
  {
    var s := First(log, id);
    var a := db.attestations[id];
    && a.document == s.document
    && Linked(db.rows, s)
    && a.signerId == db.rows[SignerKey(s.keyId)].id
    && a.id in db.submissions && db.submissions[a.id] == Count(log, id)
    && a.id in db.runs && db.runs[a.id] == RunOf(db.rows, s, db.runs[a.id].id)
    && (a.id in db.identities <==> Bound(log, id).Some?)
    && (a.id in db.identities ==> db.identities[a.id] == Bound(log, id).value)
    && FindingsOf(db.findings, db.runs[a.id].id) == FindingRows(db.runs[a.id].id, s.observed)
  }

  ghost predicate AttestationIdsUnique(db: Tables) {
    forall x, y | x in db.attestations && y in db.attestations && db.attestations[x].id == db.attestations[y].id ::
        x == y
  }

  ghost predicate RunIdsUnique(db: Tables) {
    forall x, y | x in db.runs && y in db.runs && db.runs[x].id == db.runs[y].id :: x == y
  }

  /** Some attestation has this id: the target of the foreign keys into attestations. */
  ghost predicate Owned(db: Tables, n: nat) {
    exists id :: id in db.attestations && db.attestations[id].id == n
  }

  ghost predicate RunExists(db: Tables, runId: nat) {
    exists n :: n in db.runs && db.runs[n].id == runId
  }

  ghost predicate FindingsOwned(db: Tables) {
    forall i {:trigger RunExists(db, db.findings[i].runId)} | 0 <= i < |db.findings| ::
        RunExists(db, db.findings[i].runId)
  }

  /** Some accepted submission refers to the row. */
  ghost predicate Backed(db: Tables, log: seq<Submission>, key: Key) {
    exists id :: id in db.attestations && Seen(log, id) && Linked(db.rows, First(log, id)) &&
        Mentions(db.rows, First(log, id), key)
  }

  /** The foreign keys into attestations and verification_runs. */
  ghost predicate AllOwned(db: Tables) {
    forall n {:trigger Owned(db, n)} | n in db.submissions || n in db.runs || n in db.identities :: Owned(db, n)
  }

  ghost predicate AllStored(db: Tables, log: seq<Submission>) {
    && (forall id :: id in db.attestations <==> Seen(log, id))
    && (forall id {:trigger Stored(db, log, id)} | id in db.attestations :: Stored(db, log, id))
  }

  ghost predicate AllBacked(db: Tables, log: seq<Submission>) {
    forall key {:trigger Backed(db, log, key)} | key in db.rows :: Backed(db, log, key)
  }

  /** The tables represent the log. */
  ghost predicate Represents(db: Tables, log: seq<Submission>) {
    && IdsUnique(db.rows)
    && PurlsSpelled(db.rows)
    && AttestationIdsUnique(db)
    && RunIdsUnique(db)
    && AllOwned(db)
    && FindingsOwned(db)
    && AllStored(db, log)
    && AllBacked(db, log)
  }

  /** The sequences have not handed these values to any stored row. */
  ghost predicate Fresh(db: Tables, d: Draws) {
    && d.Valid()
    && (forall key, k | key in db.rows && 0 <= k < UPSERTS && TableOf(key) == TableAt(k) ::
        db.rows[key].id != d.upserts[k])
    && (forall id | id in db.attestations :: db.attestations[id].id != d.attestation)
    && (forall n | n in db.runs :: db.runs[n].id != d.run)
  }

  // ---- What the upserts do to the rows ----

  /** The committed rows under the first `k` upserts. */
  function RowsAfter(base: map<Key, Row>, s: Submission, d: Draws, k: nat): map<Key, Row>
    requires d.Valid() && k <= UPSERTS
  {
    base + UpsertsAt(base, s, d, k).rows
  }

  lemma UpsertStep(base: map<Key, Row>, s: Submission, d: Draws, k: nat)
    requires d.Valid() && k < UPSERTS
    ensures var rows := RowsAfter(base, s, d, k);
      var ids := UpsertsAt(base, s, d, k).ids;
      var key := KeyAt(s, ids, k);
      var id := if key in rows then rows[key].id else d.upserts[k];
      RowsAfter(base, s, d, k + 1) == rows[key := Row(id, PurlAt(s, k))] &&
      UpsertsAt(base, s, d, k + 1).ids == ids + [id]
  {
  }

  /** Upserts keep every old row and its id, and never share an id. */
  ghost predicate Extends(base: map<Key, Row>, rows: map<Key, Row>) {
    forall key | key in base :: key in rows && rows[key].id == base[key].id
  }

  ghost predicate Pending(rows: map<Key, Row>, d: Draws, k: nat)
    requires d.Valid()
  {
    forall key, j | key in rows && k <= j < UPSERTS && TableOf(key) == TableAt(j) :: rows[key].id != d.upserts[j]
  }

  ghost predicate Done(rows: map<Key, Row>, s: Submission, ids: seq<nat>) {
    |ids| <= UPSERTS && forall i | 0 <= i < |ids| :: KeyAt(s, ids, i) in rows && rows[KeyAt(s, ids, i)].id == ids[i]
  }

  /** Every row is an old one or the target of an upsert. */
  ghost predicate OnlyTargets(base: map<Key, Row>, rows: map<Key, Row>, s: Submission, ids: seq<nat>)
    requires |ids| <= UPSERTS
  {
    forall key | key in rows :: key in base || exists i :: 0 <= i < |ids| && key == KeyAt(s, ids, i)
  }

  lemma PutKeepsIds(rows: map<Key, Row>, d: Draws, k: nat, key: Key, row: Row)
    requires d.Valid() && k < UPSERTS && TableOf(key) == TableAt(k)
    requires IdsUnique(rows) && Pending(rows, d, k)
    requires row.id == if key in rows then rows[key].id else d.upserts[k]
    ensures IdsUnique(rows[key := row]) && Pending(rows[key := row], d, k + 1) && Extends(rows, rows[key := row])
  {
  }

  lemma KeyAtPrefix(s: Submission, ids: seq<nat>, id: nat, i: nat)
    requires i <= |ids| && i < UPSERTS
    ensures KeyAt(s, ids + [id], i) == KeyAt(s, ids, i)
    ensures s.WellTyped() ==> TableOf(KeyAt(s, ids, i)) == TableAt(i)
  {
  }

  lemma PutIsDone(base: map<Key, Row>, rows: map<Key, Row>, s: Submission, ids: seq<nat>, row: Row)
    requires |ids| < UPSERTS
    requires Done(rows, s, ids) && OnlyTargets(base, rows, s, ids) && Extends(base, rows)
    requires KeyAt(s, ids, |ids|) in rows ==> row.id == rows[KeyAt(s, ids, |ids|)].id
    ensures var after := rows[KeyAt(s, ids, |ids|) := row];
      Done(after, s, ids + [row.id]) && OnlyTargets(base, after, s, ids + [row.id]) && Extends(base, after)
  {
    var after := rows[KeyAt(s, ids, |ids|) := row];
    forall i | 0 <= i <= |ids|
      ensures KeyAt(s, ids + [row.id], i) == KeyAt(s, ids, i)
    {
      KeyAtPrefix(s, ids, row.id, i);
    }
    forall key | key in after
      ensures key in base || exists i :: 0 <= i < |ids + [row.id]| && key == KeyAt(s, ids + [row.id], i)
    {
      if key == KeyAt(s, ids, |ids|) {
        assert key == KeyAt(s, ids + [row.id], |ids|);
      } else if key !in base {
        var i :| 0 <= i < |ids| && key == KeyAt(s, ids, i);
        assert key == KeyAt(s, ids + [row.id], i);
      }
    }
  }

  ghost predicate RowsKept(base: map<Key, Row>, rows: map<Key, Row>, s: Submission, d: Draws, ids: seq<nat>, k: nat)
    requires d.Valid() && |ids| == k <= UPSERTS
  {
    Extends(base, rows) && IdsUnique(rows) && Pending(rows, d, k) && Done(rows, s, ids) &&
        OnlyTargets(base, rows, s, ids)
  }

  lemma UpsertKeepsRows(base: map<Key, Row>, rows: map<Key, Row>, s: Submission, d: Draws, ids: seq<nat>, k: nat,
      row: Row)
    requires d.Valid() && |ids| == k < UPSERTS && s.WellTyped() && RowsKept(base, rows, s, d, ids, k)
    requires var key := KeyAt(s, ids, k); row.id == if key in rows then rows[key].id else d.upserts[k]
    ensures RowsKept(base, rows[KeyAt(s, ids, k) := row], s, d, ids + [row.id], k + 1)
  {
    KeyAtPrefix(s, ids, row.id, k);
    PutKeepsIds(rows, d, k, KeyAt(s, ids, k), row);
    PutIsDone(base, rows, s, ids, row);
  }

  lemma UpsertsKeepNext(base: map<Key, Row>, s: Submission, d: Draws, k: nat)
    requires d.Valid() && k < UPSERTS && s.WellTyped()
    requires RowsKept(base, RowsAfter(base, s, d, k), s, d, UpsertsAt(base, s, d, k).ids, k)
    ensures RowsKept(base, RowsAfter(base, s, d, k + 1), s, d, UpsertsAt(base, s, d, k + 1).ids, k + 1)
  {
    UpsertStep(base, s, d, k);
    var rows, ids := RowsAfter(base, s, d, k), UpsertsAt(base, s, d, k).ids;
    var key := KeyAt(s, ids, k);
    var row := Row(if key in rows then rows[key].id else d.upserts[k], PurlAt(s, k));
    UpsertKeepsRows(base, rows, s, d, ids, k, row);
  }

  lemma {:induction false} UpsertsKeepRows(base: map<Key, Row>, s: Submission, d: Draws, k: nat)
    requires d.Valid() && k <= UPSERTS && s.WellTyped()
    requires IdsUnique(base) && Pending(base, d, 0)
    ensures RowsKept(base, RowsAfter(base, s, d, k), s, d, UpsertsAt(base, s, d, k).ids, k)
  {
    if k > 0 {
      UpsertsKeepRows(base, s, d, k - 1);
      UpsertsKeepNext(base, s, d, k - 1);
    }
  }

  lemma PutKeepsSpelling(rows: map<Key, Row>, s: Submission, ids: seq<nat>, row: Row)
    requires |ids| < UPSERTS && s.WellTyped() && SubjectSpelled(s.subject)
    requires Done(rows, s, ids) && PurlsSpelled(rows)
    requires var key := KeyAt(s, ids, |ids|); key in rows ==> row.id == rows[key].id
    requires row.purl == PurlAt(s, |ids|)
    ensures PurlsSpelled(rows[KeyAt(s, ids, |ids|) := row])
  {
    var key := KeyAt(s, ids, |ids|);
    var after := rows[key := row];
    KeyAtPrefix(s, ids, 0, |ids|);
    forall v | v in after && v.VersionKey?
      ensures SpelledBy(after, v)
    {
      if v == key {
        assert KeyAt(s, ids, 1) in after && after[s.Package()].id == v.versionPackage;
      } else {
        assert SpelledBy(rows, v);
        var p :| p in rows && p.PackageKey? && rows[p].id == v.versionPackage &&
          rows[v].purl == PurlOf(p.ecosystem, p.name, v.version);
        assert after[p].id == v.versionPackage;
      }
    }
  }

  lemma UpsertKeepsSpelling(base: map<Key, Row>, s: Submission, d: Draws, k: nat)
    requires d.Valid() && k < UPSERTS && s.WellTyped() && SubjectSpelled(s.subject)
    requires PurlsSpelled(RowsAfter(base, s, d, k)) && Done(RowsAfter(base, s, d, k), s, UpsertsAt(base, s, d, k).ids)
    ensures PurlsSpelled(RowsAfter(base, s, d, k + 1))
  {
    UpsertStep(base, s, d, k);
    var rows := RowsAfter(base, s, d, k);
    var ids := UpsertsAt(base, s, d, k).ids;
    var key := KeyAt(s, ids, k);
    PutKeepsSpelling(rows, s, ids, Row(if key in rows then rows[key].id else d.upserts[k], PurlAt(s, k)));
  }

  lemma {:induction false} UpsertsKeepSpelling(base: map<Key, Row>, s: Submission, d: Draws, k: nat)
    requires d.Valid() && k <= UPSERTS && s.WellTyped() && SubjectSpelled(s.subject)
    requires IdsUnique(base) && Pending(base, d, 0) && PurlsSpelled(base)
    ensures PurlsSpelled(RowsAfter(base, s, d, k))
  {
    if k == 0 {
      assert RowsAfter(base, s, d, 0) == base;
    } else {
      UpsertsKeepRows(base, s, d, k - 1);
      UpsertsKeepSpelling(base, s, d, k - 1);
      UpsertKeepsSpelling(base, s, d, k - 1);
    }
  }

  lemma DoneLinks(rows: map<Key, Row>, s: Submission, ids: seq<nat>)
    requires s.WellTyped() && |ids| == UPSERTS && Done(rows, s, ids)
    ensures Linked(rows, s) && ids[0] == rows[SignerKey(s.keyId)].id
    ensures forall id :: RunRow(id, ids[4], ids[5], ids[6], s.facts) == RunOf(rows, s, id)
    ensures KeyAt(s, ids, 2) == FromKey(rows, s) && KeyAt(s, ids, 3) == ToKey(rows, s) &&
        KeyAt(s, ids, 4) == TransitionOf(rows, s)
  {
    assert KeyAt(s, ids, 0) in rows && KeyAt(s, ids, 1) in rows && KeyAt(s, ids, 2) in rows && KeyAt(s, ids, 3) in rows;
    assert KeyAt(s, ids, 4) in rows && KeyAt(s, ids, 5) in rows && KeyAt(s, ids, 6) in rows;
  }

  /** The upserts of a submission leave the rows it refers to, with the ids they returned. */
  lemma UpsertsLink(base: map<Key, Row>, s: Submission, d: Draws)
    requires d.Valid() && Admissible(s)
    requires IdsUnique(base) && Pending(base, d, 0) && PurlsSpelled(base)
    ensures var u := UpsertsAt(base, s, d, UPSERTS);
      var rows := base + u.rows;
      && Extends(base, rows) && IdsUnique(rows) && PurlsSpelled(rows) && Linked(rows, s)
      && u.ids[0] == rows[SignerKey(s.keyId)].id
      && RunRow(d.run, u.ids[4], u.ids[5], u.ids[6], s.facts) == RunOf(rows, s, d.run)
      && forall key | key in rows :: key in base || Mentions(rows, s, key)
  {
    UpsertsKeepRows(base, s, d, UPSERTS);
    UpsertsKeepSpelling(base, s, d, UPSERTS);
    var u := UpsertsAt(base, s, d, UPSERTS);
    DoneLinks(base + u.rows, s, u.ids);
    forall key | key in base + u.rows
      ensures key in base || Mentions(base + u.rows, s, key)
    {
      if key !in base {
        var i :| 0 <= i < UPSERTS && key == KeyAt(s, u.ids, i);
      }
    }
  }

  /** More rows change nothing for a submission that is already linked. */
  lemma LinkedExtends(base: map<Key, Row>, rows: map<Key, Row>, s: Submission)
    requires Extends(base, rows) && Linked(base, s)
    ensures Linked(rows, s) && FromKey(rows, s) == FromKey(base, s) && ToKey(rows, s) == ToKey(base, s)
    ensures TransitionOf(rows, s) == TransitionOf(base, s)
    ensures rows[SignerKey(s.keyId)].id == base[SignerKey(s.keyId)].id
    ensures forall id :: RunOf(rows, s, id) == RunOf(base, s, id)
  {
  }

  // ---- Findings ----

  lemma {:induction false} FindingsOfConcat(f: seq<FindingRow>, g: seq<FindingRow>, runId: nat)
    ensures FindingsOf(f + g, runId) == FindingsOf(f, runId) + FindingsOf(g, runId)
  {
    if g == [] {
      assert f + g == f;
    } else {
      assert (f + g)[..|f + g| - 1] == f + g[..|g| - 1];
      FindingsOfConcat(f, g[..|g| - 1], runId);
    }
  }

  lemma {:induction false} FindingsOfOneRun(g: seq<FindingRow>, runId: nat, other: nat)
    requires forall i | 0 <= i < |g| :: g[i].runId == runId
    ensures FindingsOf(g, other) == if other == runId then g else []
  {
    if g != [] {
      FindingsOfOneRun(g[..|g| - 1], runId, other);
    }
  }

  lemma {:induction false} FindingsOfNone(g: seq<FindingRow>, runId: nat)
    requires forall i | 0 <= i < |g| :: g[i].runId != runId
    ensures FindingsOf(g, runId) == []
  {
    if g != [] {
      FindingsOfNone(g[..|g| - 1], runId);
    }
  }

  lemma {:induction false} SecurityRowsOfRun(runId: nat, sources: seq<PublicIntelligence>)
    ensures forall i | 0 <= i < |SecurityRows(runId, sources)| :: SecurityRows(runId, sources)[i].runId == runId
  {
    if sources != [] {
      SecurityRowsOfRun(runId, sources[..|sources| - 1]);
    }
  }

  /** Appending the findings of a new run gives them to that run and to no other. */
  lemma AppendFindings(f: seq<FindingRow>, runId: nat, o: Observed, other: nat)
    requires forall i | 0 <= i < |f| :: f[i].runId != runId
    ensures FindingsOf(f + FindingRows(runId, o), other) == if other == runId then FindingRows(runId, o)
        else FindingsOf(f, other)
    ensures forall i | 0 <= i < |FindingRows(runId, o)| :: FindingRows(runId, o)[i].runId == runId
  {
    SecurityRowsOfRun(runId, o.sources);
    var g := FindingRows(runId, o);
    FindingsOfConcat(f, g, other);
    FindingsOfOneRun(g, runId, other);
    if other == runId {
      FindingsOfNone(f, runId);
    }
  }
}
