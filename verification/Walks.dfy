/** A client that pages through the evidence of a transition while other clients
    keep submitting: the pages of Pagination over the states of Concurrency. */
module Walks {
  import opened Wrappers
  import opened Tables
  import opened Log
  import opened Concurrency
  import opened History
  import opened Queries
  import opened Pagination
  import opened Pages

  /** What happens before a page is served, and the limit it is asked for. */
  datatype Visit = Visit(steps: seq<Step>, limit: Option<int>)

  ghost predicate CanVisit(hash: string -> int, st: State, visits: seq<Visit>)
    decreases |visits|
  {
    visits == [] ||
    (CanTake(hash, st, visits[0].steps) && CanVisit(hash, After(hash, st, visits[0].steps), visits[1..]))
  }

  /** The requests of the client, each with the ids stored when it is served. */
  ghost function Requests(hash: string -> int, st: State, visits: seq<Visit>, transition: nat): seq<Request>
    requires CanVisit(hash, st, visits)
    decreases |visits|
  {
    if visits == [] then []
    else
      var now := After(hash, st, visits[0].steps);
      [Request(EvidenceOf(now.db, transition), visits[0].limit)] + Requests(hash, now, visits[1..], transition)
  }

  lemma EvidenceGrows(db: Tables, after: Tables, transition: nat)
    requires Grows(db, after)
    ensures EvidenceOf(db, transition) <= EvidenceOf(after, transition)
  {
  }

  lemma IdNotEmpty(hash: string -> int, st: State, id: string)
    requires Inv(hash, st) && Seen(Submissions(st.log), id)
    ensures id != ""
  {
    assert First(Submissions(st.log), id) in Submissions(st.log);
    var e :| 0 <= e < |st.log| && st.log[e].s.id == id;
    assert EntrySound(st, e);
  }

  lemma IdsNotEmpty(hash: string -> int, st: State, transition: nat)
    requires Inv(hash, st)
    ensures "" !in EvidenceOf(st.db, transition)
  {
    forall id | id in EvidenceOf(st.db, transition)
      ensures id != ""
    {
      IdNotEmpty(hash, st, id);
    }
  }

  lemma {:induction false} EvidenceOfRun(hash: string -> int, st: State, steps: seq<Step>, transition: nat)
    requires Inv(hash, st) && CanTake(hash, st, steps)
    ensures var ids := EvidenceOf(After(hash, st, steps).db, transition);
      EvidenceOf(st.db, transition) <= ids && "" !in ids
    ensures Inv(hash, After(hash, st, steps))
  {
    RunKeepsInv(hash, st, steps);
    RunGrows(hash, st, steps);
    EvidenceGrows(st.db, After(hash, st, steps).db, transition);
    IdsNotEmpty(hash, After(hash, st, steps), transition);
  }

  lemma GrowingFrom(first: Request, rest: seq<Request>)
    requires Growing(rest) && (rest != [] ==> first.ids <= rest[0].ids)
    ensures Growing([first] + rest)
  {
    var all := [first] + rest;
    forall i | 0 <= i < |all| - 1
      ensures all[i].ids <= all[i + 1].ids
    {
      if i > 0 {
        assert rest[i - 1].ids <= rest[i - 1 + 1].ids;
      }
    }
  }

  /** Every request sees at least what was stored at first, and no empty id. */
  predicate AllSee(requests: seq<Request>, ids: set<string>) {
    forall i | 0 <= i < |requests| :: ids <= requests[i].ids && "" !in requests[i].ids
  }

  /** The requests from the next state on, put behind one more. */
  lemma RequestsFrom(first: Request, rest: seq<Request>, now: set<string>, before: set<string>)
    requires Growing(rest) && AllSee(rest, now) && first.ids == now && before <= now && "" !in now
    ensures Growing([first] + rest) && AllSee([first] + rest, before)
  {
    GrowingFrom(first, rest);
  }

  lemma {:induction false} RequestsGrow(hash: string -> int, st: State, visits: seq<Visit>, transition: nat)
    requires Inv(hash, st) && CanVisit(hash, st, visits)
    ensures var requests := Requests(hash, st, visits, transition);
      |requests| == |visits| && Growing(requests) && AllSee(requests, EvidenceOf(st.db, transition))
    decreases |visits|
  {
    if visits != [] {
      var now := After(hash, st, visits[0].steps);
      EvidenceOfRun(hash, st, visits[0].steps, transition);
      RequestsGrow(hash, now, visits[1..], transition);
      RequestsFrom(Request(EvidenceOf(now.db, transition), visits[0].limit),
          Requests(hash, now, visits[1..], transition),
                   EvidenceOf(now.db, transition), EvidenceOf(st.db, transition));
    }
  }

  ghost function LastState(hash: string -> int, st: State, visits: seq<Visit>): State
    requires CanVisit(hash, st, visits)
    decreases |visits|
  {
    if visits == [] then st else LastState(hash, After(hash, st, visits[0].steps), visits[1..])
  }

  lemma {:induction false} LastRequest(hash: string -> int, st: State, visits: seq<Visit>, transition: nat)
    requires CanVisit(hash, st, visits) && visits != []
    ensures var requests := Requests(hash, st, visits, transition);
      requests != [] && requests[|requests| - 1].ids == EvidenceOf(LastState(hash, st, visits).db, transition)
    decreases |visits|
  {
    if |visits| > 1 {
      LastRequest(hash, After(hash, st, visits[0].steps), visits[1..], transition);
    }
  }

  /** While evidence keeps arriving, a client that follows the cursors from the
      first page never sees an id twice, sees only stored ids, and when its walk
      ends it has seen every id that was stored when it began. */
  lemma {:induction false} WalkDuringRun(hash: string -> int, steps: seq<Step>, visits: seq<Visit>, transition: nat)
    requires CanTake(hash, INITIAL, steps) && CanVisit(hash, After(hash, INITIAL, steps), visits)
    ensures var st := After(hash, INITIAL, steps);
      var walked := Follow(Requests(hash, st, visits, transition), "");
      && StrictlyIncreasing(walked.ids)
      && (forall id | id in walked.ids :: id in EvidenceOf(LastState(hash, st, visits).db, transition))
      && (walked.finished ==> forall id | id in EvidenceOf(st.db, transition) :: id in walked.ids)
  {
    var st := After(hash, INITIAL, steps);
    var requests := Requests(hash, st, visits, transition);
    RunKeepsInv(hash, INITIAL, steps);
    RequestsGrow(hash, st, visits, transition);
    WalkIsComplete(requests, "");
    if visits != [] {
      LastRequest(hash, st, visits, transition);
      EmptyCursor(requests[0].ids);
    }
  }

  // ---- The transition keeps being found ----

  datatype Names = Names(ecosystem: string, package: string, from: string, to: string)

  ghost function Found(db: Tables, names: Names): Option<nat> {
    TransitionLookup(db, names.ecosystem, names.package, names.from, names.to)
  }

  /** Names lead to one transition row. */
  lemma TransitionIsUnique(db: Tables, log: seq<Submission>, t: Key, names: Names)
    requires Represents(db, log) && t in db.rows &&
        TransitionRow(db, t, names.ecosystem, names.package, names.from, names.to)
    ensures Found(db, names) == Some(db.rows[t].id)
  {
    var p := PackageKey(names.ecosystem, names.package);
    forall u | u in db.rows && TransitionRow(db, u, names.ecosystem, names.package, names.from, names.to)
      ensures u == t
    {
      var fv, tv :| JoinsTransition(db.rows, t, p, fv, tv) && fv.version == names.from && tv.version == names.to;
      var fu, tu :| JoinsTransition(db.rows, u, p, fu, tu) && fu.version == names.from && tu.version == names.to;
      assert Backed(db, log, t) && Backed(db, log, u);
      TransitionsDiffer(db, log, p, (t, fv, tv), (u, fu, tu));
    }
  }

  lemma RowStays(db: Tables, after: Tables, t: Key, names: Names)
    requires Grows(db, after) && t in db.rows &&
        TransitionRow(db, t, names.ecosystem, names.package, names.from, names.to)
    ensures t in after.rows && after.rows[t] == db.rows[t]
    ensures TransitionRow(after, t, names.ecosystem, names.package, names.from, names.to)
  {
    var p := PackageKey(names.ecosystem, names.package);
    var fv, tv :| JoinsTransition(db.rows, t, p, fv, tv) && fv.version == names.from && tv.version == names.to;
    assert JoinsTransition(after.rows, t, p, fv, tv);
  }

  /** What was found once is found in every later state, as the same transition. */
  lemma {:induction false} StaysFound(hash: string -> int, st: State, steps: seq<Step>, names: Names)
    requires Inv(hash, st) && CanTake(hash, st, steps) && Found(st.db, names).Some?
    ensures Inv(hash, After(hash, st, steps)) && Found(After(hash, st, steps).db, names) == Found(st.db, names)
  {
    var now := After(hash, st, steps);
    RunKeepsInv(hash, st, steps);
    RunGrows(hash, st, steps);
    var t :| t in st.db.rows && TransitionRow(st.db, t, names.ecosystem, names.package, names.from, names.to) &&
      Found(st.db, names) == Some(st.db.rows[t].id);
    RowStays(st.db, now.db, t, names);
    TransitionIsUnique(now.db, Submissions(now.log), t, names);
  }

  /** The page that the endpoint answers a client with. */
  ghost function PageFor(db: Tables, names: Names, cursor: Option<string>, limit: Option<int>): Option<EvidencePage> {
    PageLookup(db, names.ecosystem, names.package, names.from, names.to, cursor, limit)
  }

  /** What a client sees who asks the endpoint for page after page: each time with the
      names, the cursor of the answer before and any limit, until there is no cursor.
      A 404 ends it without having finished. */
  ghost function Browse(hash: string -> int, st: State, visits: seq<Visit>, names: Names,
      cursor: Option<string>): Walked
    requires CanVisit(hash, st, visits)
    decreases |visits|
  {
    if visits == [] then Walked([], false)
    else
      var now := After(hash, st, visits[0].steps);
      match PageFor(now.db, names, cursor, visits[0].limit)
      case None => Walked([], false)
      case Some(page) =>
        if page.next.None? then Walked(IdsOfItems(page.items), true)
        else
          var rest := Browse(hash, now, visits[1..], names, page.next);
          Walked(IdsOfItems(page.items) + rest.ids, rest.finished)
  }

  lemma StoredItemsName(db: Tables, log: seq<Submission>, names: Names)
    requires AllStored(db, log) && Found(db, names).Some?
    ensures forall id | id in EvidenceOf(db, Found(db, names).value) :: StoredItems(db)(id).id == id
  {
  }

  function StartOf(cursor: Option<string>): string {
    if cursor.Some? then cursor.value else ""
  }

  /** It has the ids and the cursor of the page of the evidence. */
  lemma AnswerHasIds(db: Tables, log: seq<Submission>, names: Names, cursor: Option<string>, limit: Option<int>)
    requires AllStored(db, log) && Found(db, names).Some?
    ensures var answer := PageFor(db, names, cursor, limit);
      var page := PageOf(EvidenceOf(db, Found(db, names).value), StartOf(cursor), BoundedLimit(limit));
      answer.Some? && IdsOfItems(answer.value.items) == page.items && answer.value.next == page.next
  {
    StoredItemsName(db, log, names);
    ItemPageIds(EvidenceOf(db, Found(db, names).value), StoredItems(db), cursor, limit);
  }

  lemma FollowFirst(first: Request, rest: seq<Request>, cursor: string)
    ensures var page := PageOf(first.ids, cursor, BoundedLimit(first.limit));
      Follow([first] + rest, cursor) ==
      if page.next.None? then Walked(page.items, true)
      else Walked(page.items + Follow(rest, page.next.value).ids, Follow(rest, page.next.value).finished)
  {
    assert ([first] + rest)[1..] == rest;
  }

  /** One page, and then what follows its cursor. */
  lemma {:induction false} BrowseStep(hash: string -> int, st: State, now: State, visits: seq<Visit>, names: Names,
      cursor: Option<string>, transition: nat)
    requires visits != [] && CanVisit(hash, st, visits) && now == After(hash, st, visits[0].steps)
    requires AllStored(now.db, Submissions(now.log)) && Found(now.db, names) == Some(transition)
    requires var next := PageOf(EvidenceOf(now.db, transition), StartOf(cursor), BoundedLimit(visits[0].limit)).next;
      next.Some? ==>
        Browse(hash, now, visits[1..], names, next) ==
        Follow(Requests(hash, now, visits[1..], transition), next.value)
    ensures Browse(hash, st, visits, names, cursor) ==
      Follow(Requests(hash, st, visits, transition), StartOf(cursor))
  {
    AnswerHasIds(now.db, Submissions(now.log), names, cursor, visits[0].limit);
    FollowFirst(Request(EvidenceOf(now.db, transition), visits[0].limit),
        Requests(hash, now, visits[1..], transition), StartOf(cursor));
  }

  lemma {:induction false} BrowseFollows(hash: string -> int, st: State, visits: seq<Visit>, names: Names,
      cursor: Option<string>)
    requires Inv(hash, st) && CanVisit(hash, st, visits) && Found(st.db, names).Some?
    ensures Browse(hash, st, visits, names, cursor) ==
      Follow(Requests(hash, st, visits, Found(st.db, names).value), StartOf(cursor))
    decreases |visits|
  {
    if visits != [] {
      var now, transition := After(hash, st, visits[0].steps), Found(st.db, names).value;
      StaysFound(hash, st, visits[0].steps, names);
      var next := PageOf(EvidenceOf(now.db, transition), StartOf(cursor), BoundedLimit(visits[0].limit)).next;
      if next.Some? {
        BrowseFollows(hash, now, visits[1..], names, next);
      }
      BrowseStep(hash, st, now, visits, names, cursor, transition);
    }
  }

  /** While evidence keeps arriving, a client that found a transition and follows the
      cursors by its name never sees an id twice, sees only ids that the log has for
      it, and when its walk ends it has seen every id that was stored when it began. */
  lemma {:induction false} WalkByName(hash: string -> int, steps: seq<Step>, visits: seq<Visit>, names: Names)
    requires CanTake(hash, INITIAL, steps) && CanVisit(hash, After(hash, INITIAL, steps), visits)
    requires Found(After(hash, INITIAL, steps).db, names).Some?
    ensures var st := After(hash, INITIAL, steps);
      var last := LastState(hash, st, visits);
      var walked := Browse(hash, st, visits, names, None);
      && StrictlyIncreasing(walked.ids)
      && (forall id | id in walked.ids ::
            id in ScanEvidence(Submissions(last.log), names.ecosystem, names.package, names.from, names.to))
      && (walked.finished ==>
          forall id | id in ScanEvidence(Submissions(st.log), names.ecosystem, names.package, names.from, names.to) ::
              id in walked.ids)
  {
    var st := After(hash, INITIAL, steps);
    var last := LastState(hash, st, visits);
    RunKeepsInv(hash, INITIAL, steps);
    BrowseFollows(hash, st, visits, names, None);
    WalkDuringRun(hash, steps, visits, Found(st.db, names).value);
    FoundAtLast(hash, st, visits, names);
    TransitionLookupScans(st.db, Submissions(st.log), names.ecosystem, names.package, names.from, names.to);
    TransitionLookupScans(last.db, Submissions(last.log), names.ecosystem, names.package, names.from, names.to);
  }

  lemma {:induction false} FoundAtLast(hash: string -> int, st: State, visits: seq<Visit>, names: Names)
    requires Inv(hash, st) && CanVisit(hash, st, visits) && Found(st.db, names).Some?
    ensures Inv(hash, LastState(hash, st, visits)) &&
        Found(LastState(hash, st, visits).db, names) == Found(st.db, names)
    decreases |visits|
  {
    if visits != [] {
      StaysFound(hash, st, visits[0].steps, names);
      FoundAtLast(hash, After(hash, st, visits[0].steps), visits[1..], names);
    }
  }

  /** On a store that no longer changes, the walk ends and lists every id in order,
      whatever limits it asks for. */
  lemma {:induction false} WalkOfQuietStore(hash: string -> int, steps: seq<Step>, transition: nat,
      requests: seq<Request>)
    requires CanTake(hash, INITIAL, steps)
    requires var ids := EvidenceOf(After(hash, INITIAL, steps).db, transition);
      |requests| > |ids| && forall i | 0 <= i < |requests| :: requests[i].ids == ids
    ensures var ids := EvidenceOf(After(hash, INITIAL, steps).db, transition);
      Follow(requests, "") == Walked(Listing(ids), true)
  {
    var st := After(hash, INITIAL, steps);
    var ids := EvidenceOf(st.db, transition);
    RunKeepsInv(hash, INITIAL, steps);
    IdsNotEmpty(hash, st, transition);
    EmptyCursor(ids);
    WalkEnds(requests, "", ids);
  }

  predicate Quiet(visits: seq<Visit>) {
    forall i | 0 <= i < |visits| :: visits[i].steps == []
  }

  lemma {:induction false} QuietRequests(hash: string -> int, st: State, visits: seq<Visit>, transition: nat)
    requires Quiet(visits)
    ensures CanVisit(hash, st, visits)
    ensures var requests := Requests(hash, st, visits, transition);
      |requests| == |visits| && forall i | 0 <= i < |requests| :: requests[i].ids == EvidenceOf(st.db, transition)
    decreases |visits|
  {
    if visits != [] {
      QuietRequests(hash, st, visits[1..], transition);
    }
  }

  lemma {:induction false} BrowseQuietly(hash: string -> int, st: State, visits: seq<Visit>, names: Names)
    requires Inv(hash, st) && Quiet(visits) && Found(st.db, names).Some?
    requires |visits| > |EvidenceOf(st.db, Found(st.db, names).value)|
    ensures CanVisit(hash, st, visits)
    ensures Browse(hash, st, visits, names, None) == Walked(Listing(EvidenceOf(st.db, Found(st.db, names).value)), true)
  {
    var transition := Found(st.db, names).value;
    QuietRequests(hash, st, visits, transition);
    BrowseFollows(hash, st, visits, names, None);
    IdsNotEmpty(hash, st, transition);
    EmptyCursor(EvidenceOf(st.db, transition));
    WalkEnds(Requests(hash, st, visits, transition), "", EvidenceOf(st.db, transition));
  }

  /** On a store that no longer changes, a client that asks for one page more than there
      are ids comes to the end, whatever limits it asks for, and has seen exactly the
      ids that the log has for the transition, in order. */
  lemma {:induction false} BrowseOfQuietStore(hash: string -> int, steps: seq<Step>, visits: seq<Visit>, names: Names)
    requires CanTake(hash, INITIAL, steps) && Quiet(visits)
    requires var st := After(hash, INITIAL, steps);
      var scanned := ScanEvidence(Submissions(st.log), names.ecosystem, names.package, names.from, names.to);
      scanned != {} && |visits| > |scanned|
    ensures var st := After(hash, INITIAL, steps);
      var scanned := ScanEvidence(Submissions(st.log), names.ecosystem, names.package, names.from, names.to);
      && CanVisit(hash, st, visits)
      && var walked := Browse(hash, st, visits, names, None);
      walked.finished && StrictlyIncreasing(walked.ids) && forall id :: id in walked.ids <==> id in scanned
  {
    var st := After(hash, INITIAL, steps);
    RunKeepsInv(hash, INITIAL, steps);
    TransitionLookupScans(st.db, Submissions(st.log), names.ecosystem, names.package, names.from, names.to);
    BrowseQuietly(hash, st, visits, names);
    ListingIncreases(EvidenceOf(st.db, Found(st.db, names).value));
  }
}
