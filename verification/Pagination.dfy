/** Keyset pagination of the evidence of a transition. */
module Pagination {
  import opened Wrappers
  import opened Ordering

  datatype Page = Page(items: seq<string>, next: Option<string>)

  function BoundedLimit(requested: Option<int>): (limit: nat)
    ensures 1 <= limit <= 100
    ensures requested.None? ==> limit == 50
    ensures requested.Some? ==>
      var n := requested.value;
      (n <= 1 ==> limit == 1) && (1 <= n <= 100 ==> limit == n) && (n >= 100 ==> limit == 100)
  {
    var limit := if requested.Some? then requested.value else 50;
    if limit < 1 then 1 else if limit > 100 then 100 else limit
  }

  /** The ids that come after the cursor. */
  function Above(ids: set<string>, cursor: string): set<string> {
    set id | id in ids && TextLt(cursor, id)
  }

  /** The ids in order. */
  ghost function Listing(ids: set<string>): (xs: seq<string>)
    ensures |xs| == |ids| && forall x :: x in xs <==> x in ids
  {
    TextLeTotal();
    Ordered(TextLe, ids)
  }

  /** The page that answers a request: up to `limit` of the first ids above the
      cursor, and the last of them as the next cursor exactly when there are more. */
  ghost function PageOf(ids: set<string>, cursor: string, limit: nat): Page
    requires limit >= 1
  {
    var all := Listing(Above(ids, cursor));
    if |all| <= limit then Page(all, None) else Page(all[..limit], Some(all[limit - 1]))
  }

  /** How the server builds the page: it asks for one row more than the limit, and
      drops that row again when it got it. */
  method BuildPage(ghost ids: set<string>, ghost cursor: string, fetched: seq<string>, limit: nat) returns (page: Page)
    requires limit >= 1
    requires var all := Listing(Above(ids, cursor)); fetched == all[..if |all| <= limit then |all| else limit + 1]
    ensures page == PageOf(ids, cursor, limit)
  {
    var rows := fetched;
    var hasMore := |rows| > limit;
    if hasMore {
      rows := rows[..|rows| - 1];
    }
    var next := if hasMore && |rows| > 0 then Some(rows[|rows| - 1]) else None;
    page := Page(rows, next);
  }

  /** A client's walk: each request sees the ids of its own moment, asks for any
      limit, and continues from the cursor of the page before. */
  datatype Request = Request(ids: set<string>, limit: Option<int>)

  datatype Walked = Walked(ids: seq<string>, finished: bool)

  ghost function Follow(requests: seq<Request>, cursor: string): Walked {
    if requests == [] then Walked([], false)
    else
      var page := PageOf(requests[0].ids, cursor, BoundedLimit(requests[0].limit));
      if page.next.None? then Walked(page.items, true)
      else
        var rest := Follow(requests[1..], page.next.value);
        Walked(page.items + rest.ids, rest.finished)
  }

  predicate Growing(requests: seq<Request>) {
    forall i | 0 <= i < |requests| - 1 :: requests[i].ids <= requests[i + 1].ids
  }

  predicate StrictlyIncreasing(ids: seq<string>) {
    forall i, j | 0 <= i < j < |ids| :: TextLt(ids[i], ids[j])
  }

  lemma ListingIncreases(ids: set<string>)
    ensures StrictlyIncreasing(Listing(ids))
  {
    TextLeTotal();
    OrderedIncreases(TextLe, ids);
  }

  lemma PrefixCovers(all: seq<string>, limit: nat)
    requires StrictlyIncreasing(all) && 1 <= limit <= |all|
    ensures StrictlyIncreasing(all[..limit])
    ensures forall x | x in all :: x in all[..limit] || TextLt(all[limit - 1], x)
    ensures forall x | x in all[..limit] :: x in all
  {
    forall x | x in all
      ensures x in all[..limit] || TextLt(all[limit - 1], x)
    {
      var i :| 0 <= i < |all| && all[i] == x;
      if i < limit {
        assert all[..limit][i] == x;
      }
    }
  }

  /** What one page covers: everything above the cursor up to its own last id. */
  lemma PageCovers(ids: set<string>, cursor: string, limit: nat)
    requires limit >= 1
    ensures var page := PageOf(ids, cursor, limit);
      && StrictlyIncreasing(page.items)
      && (forall x | x in page.items :: x in ids && TextLt(cursor, x))
      && (page.next.None? ==> forall x | x in Above(ids, cursor) :: x in page.items)
      && (page.next.Some? ==>
          && page.items != [] && page.next.value == page.items[|page.items| - 1]
          && (forall x | x in Above(ids, cursor) :: x in page.items || TextLt(page.next.value, x)))
  {
    var all := Listing(Above(ids, cursor));
    ListingIncreases(Above(ids, cursor));
    if |all| > limit {
      PrefixCovers(all, limit);
    }
  }

  /** How many items a page has, and that its cursor says whether there are more. */
  lemma PageCount(ids: set<string>, cursor: string, limit: nat)
    requires limit >= 1
    ensures var page, above := PageOf(ids, cursor, limit), Above(ids, cursor);
      && |page.items| == (if |above| <= limit then |above| else limit)
      && (page.next.Some? <==> |above| > limit)
  {
  }

  /** Each page but the last leaves fewer ids to see. */
  lemma PageAdvances(ids: set<string>, cursor: string, limit: nat)
    requires limit >= 1 && PageOf(ids, cursor, limit).next.Some?
    ensures var next := PageOf(ids, cursor, limit).next.value;
      TextLt(cursor, next) && |Above(ids, next)| < |Above(ids, cursor)|
  {
    var all := Listing(Above(ids, cursor));
    assert all[limit - 1] in all;
    AboveShrinks(ids, cursor, all[limit - 1]);
  }

  lemma AboveShrinks(ids: set<string>, cursor: string, last: string)
    requires last in Above(ids, cursor)
    ensures |Above(ids, last)| < |Above(ids, cursor)|
  {
    forall x | x in Above(ids, last)
      ensures x in Above(ids, cursor) - {last}
    {
      TextLeOrder(cursor, last, x);
    }
    Subset(Above(ids, last), Above(ids, cursor) - {last});
  }

  lemma {:induction false} Subset<T>(a: set<T>, b: set<T>)
    requires a <= b
    ensures |a| <= |b|
    decreases |a|
  {
    if x :| x in a {
      Subset(a - {x}, b - {x});
    }
  }

  lemma JoinIncreasing(a: seq<string>, b: seq<string>, last: string)
    requires StrictlyIncreasing(a) && StrictlyIncreasing(b)
    requires a != [] && a[|a| - 1] == last && forall x | x in b :: TextLt(last, x)
    ensures StrictlyIncreasing(a + b)
  {
    var c := a + b;
    forall i, j | 0 <= i < j < |c|
      ensures TextLt(c[i], c[j])
    {
      if i < |a| <= j {
        assert c[j] == b[j - |a|] && b[j - |a|] in b;
        TextLeOrder(c[i], last, c[j]);
        TextLeOrder(c[j], c[i], last);
      }
    }
  }

  /** What a walk from a cursor gives, when `last` is stored at its last request. */
  predicate Covers(walked: Walked, cursor: string, first: set<string>, last: set<string>) {
    && StrictlyIncreasing(walked.ids)
    && (forall x | x in walked.ids :: TextLt(cursor, x) && x in last)
    && (walked.finished ==> forall x | x in Above(first, cursor) :: x in walked.ids)
  }

  /** While ids keep arriving: a walk never repeats an id, never invents one, and a
      finished walk has every id that was there when it started. */
  lemma {:induction false} WalkIsComplete(requests: seq<Request>, cursor: string)
    requires Growing(requests)
    ensures requests != [] ==> Covers(Follow(requests, cursor), cursor, requests[0].ids, requests[|requests| - 1].ids)
    ensures requests == [] ==> Follow(requests, cursor) == Walked([], false)
    decreases |requests|
  {
    if requests != [] {
      var page := PageOf(requests[0].ids, cursor, BoundedLimit(requests[0].limit));
      PageCovers(requests[0].ids, cursor, BoundedLimit(requests[0].limit));
      GrowingToLast(requests);
      if page.next.Some? {
        GrowingTail(requests);
        WalkIsComplete(requests[1..], page.next.value);
        if |requests| > 1 {
          WalkContinues(requests[0].ids, requests[1].ids, requests[|requests| - 1].ids, cursor,
              BoundedLimit(requests[0].limit),
                        Follow(requests[1..], page.next.value));
        }
      }
    }
  }

  lemma GrowingTail(requests: seq<Request>)
    requires requests != [] && Growing(requests)
    ensures Growing(requests[1..])
  {
    var tail := requests[1..];
    forall i | 0 <= i < |tail| - 1
      ensures tail[i].ids <= tail[i + 1].ids
    {
      assert requests[i + 1].ids <= requests[i + 1 + 1].ids;
    }
  }

  /** One page and then the rest of the walk. */
  lemma WalkContinues(first: set<string>, second: set<string>, last: set<string>, cursor: string, limit: nat,
      rest: Walked)
    requires limit >= 1 && first <= second && first <= last && PageOf(first, cursor, limit).next.Some?
    requires Covers(rest, PageOf(first, cursor, limit).next.value, second, last)
    ensures Covers(Walked(PageOf(first, cursor, limit).items + rest.ids, rest.finished), cursor, first, last)
  {
    var page := PageOf(first, cursor, limit);
    var next := page.next.value;
    PageCovers(first, cursor, limit);
    PageAdvances(first, cursor, limit);
    JoinIncreasing(page.items, rest.ids, next);
    forall x | x in rest.ids
      ensures TextLt(cursor, x)
    {
      TextLeOrder(cursor, next, x);
      TextLeOrder(x, cursor, next);
    }
    if rest.finished {
      forall x | x in Above(first, cursor)
        ensures x in page.items + rest.ids
      {
        assert x in page.items || x in Above(second, next);
      }
    }
  }

  lemma {:induction false} GrowingToLast(requests: seq<Request>)
    requires requests != [] && Growing(requests)
    ensures requests[0].ids <= requests[|requests| - 1].ids
    decreases |requests|
  {
    if |requests| > 1 {
      var init := requests[..|requests| - 1];
      assert Growing(init) by {
        forall i | 0 <= i < |init| - 1
          ensures init[i].ids <= init[i + 1].ids
        {
          assert requests[i].ids <= requests[i + 1].ids;
        }
      }
      GrowingToLast(init);
      assert requests[|requests| - 2].ids <= requests[|requests| - 2 + 1].ids;
    }
  }

  /** On fixed ids a walk ends after at most one request per id and one more,
      whatever the limits, and lists every id above the cursor in order. */
  lemma {:induction false} WalkEnds(requests: seq<Request>, cursor: string, ids: set<string>)
    requires forall i | 0 <= i < |requests| :: requests[i].ids == ids
    requires |requests| > |Above(ids, cursor)|
    ensures Follow(requests, cursor).finished && Follow(requests, cursor).ids == Listing(Above(ids, cursor))
    decreases |requests|
  {
    var page := PageOf(ids, cursor, BoundedLimit(requests[0].limit));
    if page.next.Some? {
      PageAdvances(ids, cursor, BoundedLimit(requests[0].limit));
      WalkEnds(requests[1..], page.next.value, ids);
    }
    assert Growing(requests);
    WalkIsComplete(requests, cursor);
    ListingIncreases(Above(ids, cursor));
    StrictIsUnique(Follow(requests, cursor).ids, Listing(Above(ids, cursor)));
  }

  lemma StrictIsUnique(a: seq<string>, b: seq<string>)
    requires StrictlyIncreasing(a) && StrictlyIncreasing(b) && forall x :: x in a <==> x in b
    ensures a == b
  {
    TextLeTotal();
    assert Elements(a) == Elements(b);
    IncreasingUnique(TextLe, a, b);
  }

  /** The empty cursor, which a first request sends, is below every id but the empty one. */
  lemma EmptyCursor(ids: set<string>)
    requires "" !in ids
    ensures Above(ids, "") == ids
  {
  }
}
