/** The lookups, as joins over the tables, and the log scans they agree with. */
module Queries {
  import opened Wrappers
  import opened Evidence
  import opened Ordering
  import opened Outcome
  import opened Tables
  import opened Log
  import opened Pagination
  import opened Counting

  datatype VersionInfo = VersionInfo(version: string, purl: string)

  datatype Assurance = LocalDevelopmentKey | SigstoreKeylessCi

  datatype EvidenceItem = EvidenceItem(id: string, digest: string, outcome: Verdict, assurance: Assurance)

  // ---- Joins over the tables ----

  /** The version row refers to the package row. */
  predicate JoinsVersion(rows: map<Key, Row>, p: Key, v: Key) {
    && p in rows && p.PackageKey? && v in rows && v.VersionKey?
    && v.versionPackage == rows[p].id
  }

  /** The transition row refers to the package row and to both version rows. */
  predicate JoinsTransition(rows: map<Key, Row>, t: Key, p: Key, fv: Key, tv: Key) {
    && t in rows && t.TransitionKey? && p in rows && p.PackageKey?
    && fv in rows && fv.VersionKey? && tv in rows && tv.VersionKey?
    && t.transitionPackage == rows[p].id && t.fromId == rows[fv].id && t.toId == rows[tv].id
  }

  ghost function VersionRows(db: Tables, ecosystem: string, package: string): set<Key> {
    set v | v in db.rows && JoinsVersion(db.rows, PackageKey(ecosystem, package), v)
  }

  ghost predicate TransitionRow(db: Tables, t: Key, ecosystem: string, package: string, from: string, to: string) {
    exists fv, tv :: JoinsTransition(db.rows, t, PackageKey(ecosystem, package), fv, tv) && fv.version == from &&
        tv.version == to
  }

  /** GET /v1/packages/{ecosystem}/{package}: None is 404. */
  ghost function PackageLookup(db: Tables, ecosystem: string, package: string): Option<seq<VersionInfo>> {
    var versions := Listing(Values(VersionRows(db, ecosystem, package), VersionOf));
    if versions == [] then None
    else Some(seq(|versions|, i requires 0 <= i < |versions| => VersionInfo(versions[i],
        PurlOfVersion(db, ecosystem, package, versions[i]))))
  }

  ghost function PurlOfVersion(db: Tables, ecosystem: string, package: string, version: string): string {
    var p := PackageKey(ecosystem, package);
    if p in db.rows && VersionKey(db.rows[p].id, version) in db.rows
        then db.rows[VersionKey(db.rows[p].id, version)].purl else ""
  }

  /** GET /v1/packages/{ecosystem}/{package}/versions/{version}: None is 404. */
  ghost function VersionLookup(db: Tables, ecosystem: string, package: string, version: string): Option<seq<(string,
      string)>> {
    var pairs := TransitionPairs(db, PackageKey(ecosystem, package), version);
    if pairs == {} then None else Some(PairListing(pairs))
  }

  /** The joined rows into or out of a version: transition, from and to. */
  ghost function TransitionRows(db: Tables, p: Key, version: string): set<(Key, Key, Key)> {
    set t, fv, tv | t in db.rows && fv in db.rows && tv in db.rows &&
      JoinsTransition(db.rows, t, p, fv, tv) && (fv.version == version || tv.version == version) :: (t, fv, tv)
  }

  function PairOf(row: (Key, Key, Key)): (string, string) {
    (VersionOf(row.1), VersionOf(row.2))
  }

  function VersionOf(v: Key): string {
    if v.VersionKey? then v.version else ""
  }

  ghost function TransitionPairs(db: Tables, p: Key, version: string): set<(string, string)> {
    Values(TransitionRows(db, p, version), PairOf)
  }

  /** Pairs in order, by the first version and then the second. */
  ghost function PairListing(pairs: set<(string, string)>): seq<(string, string)> {
    PairLeTotal();
    Ordered(PairLe, pairs)
  }

  /** `transition_id`: None is 404. */
  ghost function TransitionLookup(db: Tables, ecosystem: string, package: string, from: string,
      to: string): Option<nat> {
    if t :| t in db.rows && TransitionRow(db, t, ecosystem, package, from, to) then Some(db.rows[t].id) else None
  }

  /** The evidence whose run is of the transition. */
  function EvidenceOf(db: Tables, transition: nat): set<string> {
    set id | id in db.attestations && db.attestations[id].id in db.runs &&
        db.runs[db.attestations[id].id].transitionId == transition
  }

  /** GET /v1/evidence/{id}: None is 404. */
  function RawEvidence(db: Tables, id: string): Option<Bytes> {
    if id in db.attestations then Some(db.attestations[id].document.original) else None
  }

  /** One item of a page; without an identity it counts as signed by a local key. */
  function ItemOf(db: Tables, id: string): EvidenceItem
    requires id in db.attestations && db.attestations[id].id in db.runs
  {
    var a := db.attestations[id];
    EvidenceItem(id, a.document.evidenceDigest, db.runs[a.id].facts.outcome,
                 if a.id in db.identities then SigstoreKeylessCi else LocalDevelopmentKey)
  }

  // ---- Scans of the log ----

  function Ids(log: seq<Submission>): set<string> {
    set s | s in log :: s.id
  }

  predicate IsFirst(log: seq<Submission>, id: string, ecosystem: string, package: string) {
    Seen(log, id) && First(log, id).Package() == PackageKey(ecosystem, package)
  }

  ghost function ScanVersions(log: seq<Submission>, ecosystem: string, package: string): set<string> {
    (set id | id in Ids(log) && IsFirst(log, id, ecosystem, package) :: First(log, id).From()) +
    (set id | id in Ids(log) && IsFirst(log, id, ecosystem, package) :: First(log, id).To())
  }

  ghost function ScanTransitions(log: seq<Submission>, ecosystem: string, package: string,
      version: string): set<(string, string)> {
    set id | id in Ids(log) && IsFirst(log, id, ecosystem, package) &&
      (First(log, id).From() == version || First(log, id).To() == version) ::
          (First(log, id).From(), First(log, id).To())
  }

  ghost function ScanEvidence(log: seq<Submission>, ecosystem: string, package: string, from: string,
      to: string): set<string> {
    set id | id in Ids(log) && IsFirst(log, id, ecosystem, package) && First(log, id).From() == from &&
        First(log, id).To() == to
  }

  lemma {:induction false} SeenIsIds(log: seq<Submission>, id: string)
    ensures Seen(log, id) <==> id in Ids(log)
  {
    if log != [] {
      var init := log[..|log| - 1];
      SeenIsIds(init, id);
      assert log == init + [log[|log| - 1]];
      assert Ids(log) == Ids(init) + {log[|log| - 1].id};
    }
  }

  // ---- They agree ----

  lemma StoredIsLinked(db: Tables, log: seq<Submission>, id: string)
    requires AllStored(db, log) && Seen(log, id)
    ensures id in db.attestations && Linked(db.rows, First(log, id))
    ensures db.attestations[id].id in db.runs
    ensures db.runs[db.attestations[id].id] == RunOf(db.rows, First(log, id), db.runs[db.attestations[id].id].id)
  {
    assert Stored(db, log, id);
  }

  lemma BackedBy(db: Tables, log: seq<Submission>, key: Key) returns (id: string)
    requires Backed(db, log, key)
    ensures Seen(log, id) && Linked(db.rows, First(log, id)) && Mentions(db.rows, First(log, id), key)
  {
    id :| id in db.attestations && Seen(log, id) && Linked(db.rows, First(log, id)) &&
        Mentions(db.rows, First(log, id), key);
  }

  lemma VersionScanned(db: Tables, log: seq<Submission>, p: Key, v: Key) returns (id: string)
    requires IdsUnique(db.rows) && Backed(db, log, v) && JoinsVersion(db.rows, p, v)
    ensures Seen(log, id) && First(log, id).Package() == p
    ensures v.version == First(log, id).From() || v.version == First(log, id).To()
  {
    id := BackedBy(db, log, v);
    var s := First(log, id);
    assert v == FromKey(db.rows, s) || v == ToKey(db.rows, s);
    assert TableOf(p) == TableOf(s.Package()) && db.rows[p].id == db.rows[s.Package()].id;
  }

  lemma TransitionScanned(db: Tables, log: seq<Submission>, t: Key, p: Key, fv: Key, tv: Key) returns (id: string)
    requires IdsUnique(db.rows) && Backed(db, log, t) && JoinsTransition(db.rows, t, p, fv, tv)
    ensures Seen(log, id) && Linked(db.rows, First(log, id)) && t == TransitionOf(db.rows, First(log, id))
    ensures First(log, id).Package() == p && fv.version == First(log, id).From() && tv.version == First(log, id).To()
  {
    id := BackedBy(db, log, t);
    var s := First(log, id);
    assert t == TransitionOf(db.rows, s);
    TransitionTells(db.rows, s, t, p, fv, tv);
  }

  /** The rows that a transition row joins to are those of its submission. */
  lemma TransitionTells(rows: map<Key, Row>, s: Submission, t: Key, p: Key, fv: Key, tv: Key)
    requires IdsUnique(rows) && Linked(rows, s) && JoinsTransition(rows, t, p, fv, tv) && t == TransitionOf(rows, s)
    ensures p == s.Package() && fv == FromKey(rows, s) && tv == ToKey(rows, s)
  {
    assert TableOf(p) == TableOf(s.Package()) && rows[p].id == rows[s.Package()].id;
    assert TableOf(fv) == TableOf(FromKey(rows, s)) && rows[fv].id == rows[FromKey(rows, s)].id;
    assert TableOf(tv) == TableOf(ToKey(rows, s)) && rows[tv].id == rows[ToKey(rows, s)].id;
  }

  /** The package lookup lists exactly the versions that accepted submissions of the
      package name, in order, each with the package URL it spells, and is 404 exactly
      when there are none. */
  lemma PackageLookupScans(db: Tables, log: seq<Submission>, ecosystem: string, package: string)
    requires Represents(db, log)
    ensures var found := PackageLookup(db, ecosystem, package);
      var scanned := ScanVersions(log, ecosystem, package);
      && (found == None <==> scanned == {})
      && (found.Some? ==>
          var versions := Listing(scanned);
          |found.value| == |versions| == |VersionRows(db, ecosystem, package)| && forall i | 0 <= i < |versions| ::
            found.value[i] == VersionInfo(versions[i], PurlOf(ecosystem, package, versions[i])))
  {
    PackageVersionsAgree(db, log, ecosystem, package);
    VersionsDiffer(db, ecosystem, package);
    PackageListed(db, ecosystem, package);
  }

  lemma PackageListed(db: Tables, ecosystem: string, package: string)
    requires IdsUnique(db.rows) && PurlsSpelled(db.rows)
    ensures var found := PackageLookup(db, ecosystem, package);
      var listed := Values(VersionRows(db, ecosystem, package), VersionOf);
      && (found == None <==> listed == {})
      && (found.Some? ==>
          var versions := Listing(listed);
          |found.value| == |versions| && forall i | 0 <= i < |versions| ::
            found.value[i] == VersionInfo(versions[i], PurlOf(ecosystem, package, versions[i])))
  {
    PackageItemsSpelled(db, ecosystem, package);
  }

  lemma PackageItemsSpelled(db: Tables, ecosystem: string, package: string)
    requires IdsUnique(db.rows) && PurlsSpelled(db.rows)
    ensures var versions := Listing(Values(VersionRows(db, ecosystem, package), VersionOf));
      forall i | 0 <= i < |versions| ::
        PurlOfVersion(db, ecosystem, package, versions[i]) == PurlOf(ecosystem, package, versions[i])
  {
    var stored := Values(VersionRows(db, ecosystem, package), VersionOf);
    var versions := Listing(stored);
    forall i | 0 <= i < |versions|
      ensures PurlOfVersion(db, ecosystem, package, versions[i]) == PurlOf(ecosystem, package, versions[i])
    {
      assert versions[i] in stored;
      PurlIsSpelled(db.rows, PackageKey(ecosystem, package), versions[i]);
    }
  }

  lemma PackageVersionsAgree(db: Tables, log: seq<Submission>, ecosystem: string, package: string)
    requires Represents(db, log)
    ensures Values(VersionRows(db, ecosystem, package), VersionOf) == ScanVersions(log, ecosystem, package)
  {
    var p := PackageKey(ecosystem, package);
    var rows := VersionRows(db, ecosystem, package);
    var scanned := ScanVersions(log, ecosystem, package);
    forall v | v in rows
      ensures VersionOf(v) in scanned
    {
      assert Backed(db, log, v);
      var id := VersionScanned(db, log, p, v);
      SeenIsIds(log, id);
      assert IsFirst(log, id, ecosystem, package);
    }
    forall version | version in scanned
      ensures exists v :: v in rows && VersionOf(v) == version
    {
      var id :| id in Ids(log) && IsFirst(log, id, ecosystem, package) &&
        (First(log, id).From() == version || First(log, id).To() == version);
      StoredIsLinked(db, log, id);
      var s := First(log, id);
      if s.From() == version {
        assert FromKey(db.rows, s) in rows && VersionOf(FromKey(db.rows, s)) == version;
      } else {
        assert ToKey(db.rows, s) in rows && VersionOf(ToKey(db.rows, s)) == version;
      }
    }
  }

  /** No version is listed twice. */
  lemma VersionsDiffer(db: Tables, ecosystem: string, package: string)
    ensures var rows := VersionRows(db, ecosystem, package); |Values(rows, VersionOf)| == |rows|
  {
    var rows := VersionRows(db, ecosystem, package);
    assert Matches(rows, Values(rows, VersionOf), VersionOf);
    MatchesCount(rows, Values(rows, VersionOf), VersionOf);
  }

  lemma PurlIsSpelled(rows: map<Key, Row>, p: Key, version: string)
    requires IdsUnique(rows) && PurlsSpelled(rows) && p in rows && p.PackageKey?
    requires VersionKey(rows[p].id, version) in rows
    ensures rows[VersionKey(rows[p].id, version)].purl == PurlOf(p.ecosystem, p.name, version)
  {
    var v := VersionKey(rows[p].id, version);
    assert SpelledBy(rows, v);
    var q :| q in rows && q.PackageKey? && rows[q].id == v.versionPackage &&
        rows[v].purl == PurlOf(q.ecosystem, q.name, v.version);
    assert TableOf(p) == TableOf(q);
  }

  /** Two joined rows with the same versions are one row. */
  lemma TransitionsDiffer(db: Tables, log: seq<Submission>, p: Key, a: (Key, Key, Key), b: (Key, Key, Key))
    requires IdsUnique(db.rows) && Backed(db, log, a.0) && Backed(db, log, b.0)
    requires JoinsTransition(db.rows, a.0, p, a.1, a.2) && JoinsTransition(db.rows, b.0, p, b.1, b.2)
    requires a.1.version == b.1.version && a.2.version == b.2.version
    ensures a == b
  {
    var x := TransitionScanned(db, log, a.0, p, a.1, a.2);
    var y := TransitionScanned(db, log, b.0, p, b.1, b.2);
    TransitionTells(db.rows, First(log, x), a.0, p, a.1, a.2);
    TransitionTells(db.rows, First(log, y), b.0, p, b.1, b.2);
  }

  lemma NoTransitionRepeats(db: Tables, log: seq<Submission>, p: Key, version: string)
    requires IdsUnique(db.rows) && AllBacked(db, log)
    ensures |TransitionPairs(db, p, version)| == |TransitionRows(db, p, version)|
  {
    var rows := TransitionRows(db, p, version);
    forall a, b | a in rows && b in rows && PairOf(a) == PairOf(b)
      ensures a == b
    {
      assert Backed(db, log, a.0) && Backed(db, log, b.0);
      TransitionsDiffer(db, log, p, a, b);
    }
    assert Matches(rows, Values(rows, PairOf), PairOf);
    MatchesCount(rows, Values(rows, PairOf), PairOf);
  }

  /** The version lookup lists exactly the transitions into and out of the version,
      in order of the pairs, one row of the join for each. */
  lemma VersionLookupScans(db: Tables, log: seq<Submission>, ecosystem: string, package: string, version: string)
    requires Represents(db, log)
    ensures var scanned := ScanTransitions(log, ecosystem, package, version);
      VersionLookup(db, ecosystem, package, version) == if scanned == {} then None else Some(PairListing(scanned))
    ensures |PairListing(TransitionPairs(db, PackageKey(ecosystem, package), version))| ==
            |TransitionRows(db, PackageKey(ecosystem, package), version)|
  {
    PairsAgree(db, log, ecosystem, package, version);
    NoTransitionRepeats(db, log, PackageKey(ecosystem, package), version);
  }

  lemma PairsAgree(db: Tables, log: seq<Submission>, ecosystem: string, package: string, version: string)
    requires Represents(db, log)
    ensures TransitionPairs(db, PackageKey(ecosystem, package), version) == ScanTransitions(log, ecosystem, package,
        version)
  {
    var p := PackageKey(ecosystem, package);
    var stored := TransitionPairs(db, p, version);
    var scanned := ScanTransitions(log, ecosystem, package, version);
    forall pair | pair in stored
      ensures pair in scanned
    {
      var row :| row in TransitionRows(db, p, version) && PairOf(row) == pair;
      var (t, fv, tv) := row;
      assert Backed(db, log, t);
      var id := TransitionScanned(db, log, t, p, fv, tv);
      SeenIsIds(log, id);
      assert IsFirst(log, id, ecosystem, package);
    }
    forall pair | pair in scanned
      ensures pair in stored
    {
      var id :| id in Ids(log) && IsFirst(log, id, ecosystem, package) &&
          pair == (First(log, id).From(), First(log, id).To());
      StoredIsLinked(db, log, id);
      var s := First(log, id);
      var row := (TransitionOf(db.rows, s), FromKey(db.rows, s), ToKey(db.rows, s));
      assert JoinsTransition(db.rows, row.0, p, row.1, row.2);
      assert row in TransitionRows(db, p, version) && PairOf(row) == pair;
    }
    assert stored == scanned;
  }

  /** A transition is found exactly when an accepted submission made it, and its
      evidence is exactly the ids of those submissions. */
  lemma TransitionLookupScans(db: Tables, log: seq<Submission>, ecosystem: string, package: string, from: string,
      to: string)
    requires Represents(db, log)
    ensures var found := TransitionLookup(db, ecosystem, package, from, to);
      var scanned := ScanEvidence(log, ecosystem, package, from, to);
      && (found == None <==> scanned == {})
      && (found.Some? ==> EvidenceOf(db, found.value) == scanned)
  {
    var found := TransitionLookup(db, ecosystem, package, from, to);
    var scanned := ScanEvidence(log, ecosystem, package, from, to);
    if id :| id in scanned {
      StoredIsLinked(db, log, id);
      var s := First(log, id);
      assert JoinsTransition(db.rows, TransitionOf(db.rows, s), PackageKey(ecosystem, package), FromKey(db.rows, s),
          ToKey(db.rows, s));
      assert TransitionRow(db, TransitionOf(db.rows, s), ecosystem, package, from, to);
    }
    if found.Some? {
      var t :| t in db.rows && TransitionRow(db, t, ecosystem, package, from, to) && found == Some(db.rows[t].id);
      TransitionEvidenceScans(db, log, t, ecosystem, package, from, to);
    }
  }

  lemma TransitionEvidenceScans(db: Tables, log: seq<Submission>, t: Key, ecosystem: string, package: string,
      from: string, to: string)
    requires Represents(db, log) && t in db.rows && TransitionRow(db, t, ecosystem, package, from, to)
    ensures EvidenceOf(db, db.rows[t].id) == ScanEvidence(log, ecosystem, package, from, to)
    ensures ScanEvidence(log, ecosystem, package, from, to) != {}
  {
    var p := PackageKey(ecosystem, package);
    var fv, tv :| JoinsTransition(db.rows, t, p, fv, tv) && fv.version == from && tv.version == to;
    assert Backed(db, log, t);
    var maker := TransitionScanned(db, log, t, p, fv, tv);
    TransitionTells(db.rows, First(log, maker), t, p, fv, tv);
    SeenIsIds(log, maker);
    assert maker in ScanEvidence(log, ecosystem, package, from, to);
    forall id | id in Ids(log) || id in db.attestations
      ensures id in EvidenceOf(db, db.rows[t].id) <==> id in ScanEvidence(log, ecosystem, package, from, to)
    {
      SeenIsIds(log, id);
      EvidenceIsScanned(db, log, t, p, fv, tv, id);
    }
  }

  /** An id belongs to a transition row exactly when its first submission names it. */
  lemma EvidenceIsScanned(db: Tables, log: seq<Submission>, t: Key, p: Key, fv: Key, tv: Key, id: string)
    requires IdsUnique(db.rows) && AllStored(db, log) && Seen(log, id) && JoinsTransition(db.rows, t, p, fv, tv)
    requires fv == VersionKey(db.rows[p].id, fv.version) && tv == VersionKey(db.rows[p].id, tv.version)
    ensures id in EvidenceOf(db, db.rows[t].id) <==>
      First(log, id).Package() == p && First(log, id).From() == fv.version && First(log, id).To() == tv.version
  {
    StoredIsLinked(db, log, id);
    var s := First(log, id);
    if id in EvidenceOf(db, db.rows[t].id) {
      assert TableOf(TransitionOf(db.rows, s)) == TableOf(t);
      TransitionTells(db.rows, s, t, p, fv, tv);
    }
  }

  /** The raw bytes of an id are those of the submission it was first accepted with. */
  lemma RawEvidenceScans(db: Tables, log: seq<Submission>, id: string)
    requires Represents(db, log)
    ensures RawEvidence(db, id) == if Seen(log, id) then Some(First(log, id).document.original) else None
  {
    if Seen(log, id) {
      assert Stored(db, log, id);
    }
  }

  /** Every item of a page says of its id what the log says. */
  lemma ItemScans(db: Tables, log: seq<Submission>, id: string)
    requires Represents(db, log) && Seen(log, id)
    ensures id in db.attestations && db.attestations[id].id in db.runs
    ensures ItemOf(db, id) == EvidenceItem(
      id, First(log, id).document.evidenceDigest, First(log, id).facts.outcome,
      if Bound(log, id).Some? then SigstoreKeylessCi else LocalDevelopmentKey)
  {
    assert Stored(db, log, id);
  }
}
