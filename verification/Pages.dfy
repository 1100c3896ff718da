/** A page of evidence, from the joined rows that the query answers with. */
module Pages {
  import opened Wrappers
  import opened Outcome
  import opened Ordering
  import opened Tables
  import opened Log
  import opened Queries
  import opened Aggregates
  import opened Pagination

  // ---- The rows of a page ----

  /** A run with its attestation, and the identity it joins to or none. */
  type Joined = ((nat, string), Option<nat>)

  function IdOfRow(row: Joined): string {
    row.0.1
  }

  function IdsOfRows(rows: seq<Joined>): seq<string> {
    seq(|rows|, i requires 0 <= i < |rows| => IdOfRow(rows[i]))
  }

  /** The item that is made of a row. */
  function ItemOfRow(db: Tables, row: Joined): EvidenceItem {
    if row.0.1 in db.attestations && row.0.0 in db.runs then
      EvidenceItem(row.0.1, db.attestations[row.0.1].document.evidenceDigest, db.runs[row.0.0].facts.outcome,
          AssuranceOf(row))
    else NO_ITEM
  }

  ghost function RowsAbove(db: Tables, transition: nat, cursor: string): set<Joined> {
    set row | row in WithIdentity(db, transition) && TextLt(cursor, IdOfRow(row))
  }

  /** The database may answer with any arrangement of the rows in which the ids do not fall. */
  predicate IsListing(rows: set<Joined>, list: seq<Joined>) {
    && Distinct(list)
    && Elements(list) == rows
    && Sorted(TextLe, IdsOfRows(list))
  }

  /** A joined row is the one of its id. */
  lemma RowOfId(db: Tables, transition: nat, row: Joined)
    requires AttestationIdsUnique(db) && AllOwned(db) && row in WithIdentity(db, transition)
    ensures IdOfRow(row) in EvidenceOf(db, transition) && row == IdentityRowOf(db)(IdOfRow(row))
  {
    IdentitiesMatch(db, transition);
    var id :| id in EvidenceOf(db, transition) && IdentityRowOf(db)(id) == row;
  }

  /** In every answer each id stands once, in strict order: it lists the evidence
      above the cursor. */
  lemma AnswerListsIds(db: Tables, transition: nat, cursor: string, list: seq<Joined>)
    requires AttestationIdsUnique(db) && AllOwned(db) && IsListing(RowsAbove(db, transition, cursor), list)
    ensures IdsOfRows(list) == Listing(Above(EvidenceOf(db, transition), cursor))
  {
    var ids := IdsOfRows(list);
    var above := Above(EvidenceOf(db, transition), cursor);
    forall i | 0 <= i < |list|
      ensures list[i] in WithIdentity(db, transition) && ids[i] in above && list[i] == IdentityRowOf(db)(ids[i])
    {
      assert list[i] in Elements(list);
      RowOfId(db, transition, list[i]);
    }
    assert StrictlyIncreasing(ids);
    forall id | id in above
      ensures id in ids
    {
      IdentitiesMatch(db, transition);
      var row := IdentityRowOf(db)(id);
      assert row in Elements(list);
      var i :| 0 <= i < |list| && list[i] == row;
      assert ids[i] == id;
    }
    ListingIncreases(above);
    StrictIsUnique(ids, Listing(above));
  }

  /** Whatever arrangement the database answers with, its first rows are what
      `BuildPage` expects, and each row makes the item of its id. */
  lemma AnswerMakesPage(db: Tables, transition: nat, cursor: string, limit: nat, list: seq<Joined>)
    requires AttestationIdsUnique(db) && AllOwned(db) && IsListing(RowsAbove(db, transition, cursor), list)
    ensures var fetched := IdsOfRows(list[..if |list| <= limit then |list| else limit + 1]);
      var all := Listing(Above(EvidenceOf(db, transition), cursor));
      |all| == |list| && fetched == all[..if |all| <= limit then |all| else limit + 1]
    ensures forall row | row in list :: ItemOfRow(db, row) == StoredItems(db)(IdOfRow(row))
  {
    AnswerListsIds(db, transition, cursor, list);
    assert |IdsOfRows(list)| == |list|;
    forall row | row in list
      ensures ItemOfRow(db, row) == StoredItems(db)(IdOfRow(row))
    {
      assert row in Elements(list);
      RowMakesItem(db, transition, row);
    }
  }

  lemma RowMakesItem(db: Tables, transition: nat, row: Joined)
    requires AttestationIdsUnique(db) && AllOwned(db) && row in WithIdentity(db, transition)
    ensures ItemOfRow(db, row) == StoredItems(db)(IdOfRow(row))
  {
    RowOfId(db, transition, row);
  }

  // ---- A whole page ----

  datatype EvidencePage = EvidencePage(items: seq<EvidenceItem>, next: Option<string>)

  lemma PageIsStored(ids: set<string>, cursor: string, limit: nat)
    requires limit >= 1
    ensures forall i | 0 <= i < |PageOf(ids, cursor, limit).items| :: PageOf(ids, cursor, limit).items[i] in ids
  {
    var all := Listing(Above(ids, cursor));
    forall i | 0 <= i < |all|
      ensures all[i] in ids
    {
      assert all[i] in all;
    }
  }

  function Items(ids: seq<string>, item: string -> EvidenceItem): seq<EvidenceItem> {
    seq(|ids|, i requires 0 <= i < |ids| => item(ids[i]))
  }

  lemma ItemsAgree(ids: seq<string>, item: string -> EvidenceItem, other: string -> EvidenceItem)
    requires forall i | 0 <= i < |ids| :: item(ids[i]) == other(ids[i])
    ensures Items(ids, item) == Items(ids, other)
  {
  }

  /** The page that answers a request, with the item of each of its ids. */
  ghost function ItemPage(ids: set<string>, item: string -> EvidenceItem, cursor: Option<string>,
      limit: Option<int>): EvidencePage {
    var page := PageOf(ids, if cursor.Some? then cursor.value else "", BoundedLimit(limit));
    EvidencePage(Items(page.items, item), page.next)
  }

  lemma ItemPagesAgree(ids: set<string>, item: string -> EvidenceItem, other: string -> EvidenceItem,
      cursor: Option<string>, limit: Option<int>)
    requires forall id | id in ids :: item(id) == other(id)
    ensures ItemPage(ids, item, cursor, limit) == ItemPage(ids, other, cursor, limit)
  {
    var after := if cursor.Some? then cursor.value else "";
    PageIsStored(ids, after, BoundedLimit(limit));
    ItemsAgree(PageOf(ids, after, BoundedLimit(limit)).items, item, other);
  }

  const NO_ITEM := EvidenceItem("", "", ReviewRequiredFinding, LocalDevelopmentKey)

  ghost function StoredItems(db: Tables): string -> EvidenceItem {
    id => if id in db.attestations && db.attestations[id].id in db.runs then ItemOf(db, id) else NO_ITEM
  }

  /** What the log says of its ids. */
  ghost function LogItems(log: seq<Submission>): string -> EvidenceItem {
    id =>
      if !Seen(log, id) then NO_ITEM
      else
        EvidenceItem(id, First(log, id).document.evidenceDigest, First(log, id).facts.outcome,
                     if Bound(log, id).Some? then SigstoreKeylessCi else LocalDevelopmentKey)
  }

  /** GET /v1/transitions/{ecosystem}/{package}/{from}/{to}/evidence: None is 404. */
  ghost function PageLookup(db: Tables, ecosystem: string, package: string, from: string, to: string,
                            cursor: Option<string>, limit: Option<int>): Option<EvidencePage>
  {
    match TransitionLookup(db, ecosystem, package, from, to)
    case None => None
    case Some(transition) => Some(ItemPage(EvidenceOf(db, transition), StoredItems(db), cursor, limit))
  }

  /** A page of evidence, ids in order with their items and the next cursor, is the
      page that a scan of the log gives; 404 exactly when no accepted submission
      made the transition. */
  lemma PageScans(db: Tables, log: seq<Submission>, ecosystem: string, package: string, from: string, to: string,
                  cursor: Option<string>, limit: Option<int>)
    requires Represents(db, log)
    ensures var scanned := ScanEvidence(log, ecosystem, package, from, to);
      PageLookup(db, ecosystem, package, from, to, cursor, limit) ==
      if scanned == {} then None else Some(ItemPage(scanned, LogItems(log), cursor, limit))
  {
    TransitionLookupScans(db, log, ecosystem, package, from, to);
    var scanned := ScanEvidence(log, ecosystem, package, from, to);
    ItemsScan(db, log, scanned);
    ItemPagesAgree(scanned, StoredItems(db), LogItems(log), cursor, limit);
  }

  lemma ItemsScan(db: Tables, log: seq<Submission>, ids: set<string>)
    requires Represents(db, log) && forall id | id in ids :: Seen(log, id)
    ensures forall id | id in ids :: StoredItems(db)(id) == LogItems(log)(id)
  {
    forall id | id in ids
      ensures StoredItems(db)(id) == LogItems(log)(id)
    {
      ItemScans(db, log, id);
    }
  }

  function IdsOfItems(items: seq<EvidenceItem>): seq<string> {
    seq(|items|, i requires 0 <= i < |items| => items[i].id)
  }

  lemma ItemPageIds(ids: set<string>, item: string -> EvidenceItem, cursor: Option<string>, limit: Option<int>)
    requires forall id | id in ids :: item(id).id == id
    ensures var page := PageOf(ids, if cursor.Some? then cursor.value else "", BoundedLimit(limit));
      var answer := ItemPage(ids, item, cursor, limit);
      IdsOfItems(answer.items) == page.items && answer.next == page.next
  {
    PageIsStored(ids, if cursor.Some? then cursor.value else "", BoundedLimit(limit));
  }

  /** What a page holds, said of the scanned ids and the order of texts alone. */
  ghost predicate IsPage(ids: seq<string>, next: Option<string>, scanned: set<string>, after: string, limit: nat) {
    var remaining := set id | id in scanned && TextLt(after, id);
    && |ids| == (if |remaining| <= limit then |remaining| else limit)
    && (forall i | 0 <= i < |ids| :: ids[i] in remaining)
    && (forall i, j | 0 <= i < j < |ids| :: TextLt(ids[i], ids[j]))
    && (next.Some? <==> |remaining| > limit)
    && (next.Some? ==> ids != [] && next.value == ids[|ids| - 1])
    && (forall id | id in remaining :: id in ids || (next.Some? && TextLt(next.value, id)))
  }

  /** Each item says of its id what the log says. */
  ghost predicate ItemsAreLogged(items: seq<EvidenceItem>, log: seq<Submission>) {
    forall i | 0 <= i < |items| ::
      && Seen(log, items[i].id)
      && items[i].digest == First(log, items[i].id).document.evidenceDigest
      && items[i].outcome == First(log, items[i].id).facts.outcome
      && items[i].assurance == if Bound(log, items[i].id).Some? then SigstoreKeylessCi else LocalDevelopmentKey
  }

  lemma LogItemsAreLogged(log: seq<Submission>, ids: seq<string>)
    requires forall i | 0 <= i < |ids| :: Seen(log, ids[i])
    ensures ItemsAreLogged(Items(ids, LogItems(log)), log)
    ensures IdsOfItems(Items(ids, LogItems(log))) == ids
  {
  }

  lemma PageOfIsPage(ids: set<string>, after: string, limit: nat)
    requires limit >= 1
    ensures IsPage(PageOf(ids, after, limit).items, PageOf(ids, after, limit).next, ids, after, limit)
  {
    PageCovers(ids, after, limit);
    PageCount(ids, after, limit);
    assert Above(ids, after) == set id | id in ids && TextLt(after, id);
  }

  /** The page that answers a request, in terms of the log and the order of texts:
      the first ids above the cursor as far as the limit goes, each with its item,
      and the last of them as the next cursor exactly when more remain. */
  lemma PageExact(db: Tables, log: seq<Submission>, ecosystem: string, package: string, from: string, to: string,
                  cursor: Option<string>, limit: Option<int>)
    requires Represents(db, log)
    ensures var scanned := ScanEvidence(log, ecosystem, package, from, to);
      var answer := PageLookup(db, ecosystem, package, from, to, cursor, limit);
      && (answer.None? <==> scanned == {})
      && (answer.Some? ==>
          && IsPage(IdsOfItems(answer.value.items), answer.value.next, scanned,
                    if cursor.Some? then cursor.value else "", BoundedLimit(limit))
          && ItemsAreLogged(answer.value.items, log))
  {
    var scanned := ScanEvidence(log, ecosystem, package, from, to);
    var after := if cursor.Some? then cursor.value else "";
    PageScans(db, log, ecosystem, package, from, to, cursor, limit);
    var ids := PageOf(scanned, after, BoundedLimit(limit)).items;
    PageIsStored(scanned, after, BoundedLimit(limit));
    forall i | 0 <= i < |ids|
      ensures Seen(log, ids[i])
    {
      SeenIsIds(log, ids[i]);
    }
    LogItemsAreLogged(log, ids);
    PageOfIsPage(scanned, after, BoundedLimit(limit));
  }
}
