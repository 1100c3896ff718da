/** The figures of a transition when they are not all read at one moment. */
module Moments {
  import opened Wrappers
  import opened Tables
  import opened Log
  import opened Concurrency
  import opened History
  import opened Queries
  import opened Counting
  import opened Aggregates
  import opened Conservation
  import opened Figures
  import opened Walks

  /** Equal, but that an identity may have been bound. */
  predicate SameButBound(a: Columns, b: Columns) {
    b == a.(assurance := b.assurance) && (a.assurance == SigstoreKeylessCi ==> b.assurance == SigstoreKeylessCi)
  }

  lemma LongerColumns(log: seq<Submission>, later: seq<Submission>, id: string)
    requires log <= later && Seen(log, id)
    ensures SameButBound(LogColumnsAt(log, id), LogColumnsAt(later, id))
    ensures LogColumnsAt(log, id).assurance == AssuranceIn(log, id) &&
        LogColumnsAt(later, id).assurance == AssuranceIn(later, id)
  {
    LongerLog(log, later, id);
  }

  /** No figure is smaller, but for the count of attestations without an identity. */
  ghost predicate FiguresGrow(a: Summary, b: Summary) {
    && a.verificationRuns <= b.verificationRuns && a.uniqueEvidence <= b.uniqueEvidence &&
        a.uniqueSigners <= b.uniqueSigners
    && NoneFalls(a.runtime, b.runtime)
    && NoneFalls(a.os, b.os)
    && NoneFalls(a.architecture, b.architecture)
    && NoneFalls(a.outcome, b.outcome)
    && NoneFalls(a.methodology, b.methodology)
    && NoneFalls(a.process, b.process)
    && CountOf(a.assurance, SigstoreKeylessCi) <= CountOf(b.assurance, SigstoreKeylessCi)
  }

  lemma SignersGrow(ids: set<string>, columns: string -> Columns, more: set<string>, others: string -> Columns)
    requires ids <= more && forall id | id in ids :: SameButBound(columns(id), others(id))
    ensures |Values(ids, By(columns, PickSigner))| <= |Values(more, By(others, PickSigner))|
  {
    GroupsGrow(ids, By(columns, PickSigner), more, By(others, PickSigner));
    SubsetCount(Values(ids, By(columns, PickSigner)), Values(more, By(others, PickSigner)));
  }

  lemma IdentitiesGrow(ids: set<string>, columns: string -> Columns, more: set<string>, others: string -> Columns)
    requires ids <= more && forall id | id in ids :: SameButBound(columns(id), others(id))
    ensures CountOf(Groups(ids, By(columns, PickAssurance)), SigstoreKeylessCi) <=
            CountOf(Groups(more, By(others, PickAssurance)), SigstoreKeylessCi)
  {
    CountOfGroups(ids, By(columns, PickAssurance), SigstoreKeylessCi);
    CountOfGroups(more, By(others, PickAssurance), SigstoreKeylessCi);
    SubsetCount(Class(ids, By(columns, PickAssurance), SigstoreKeylessCi),
        Class(more, By(others, PickAssurance), SigstoreKeylessCi));
  }

  lemma PickGrows<V(!new)>(ids: set<string>, columns: string -> Columns, more: set<string>, others: string -> Columns,
      pick: Columns -> V)
    requires ids <= more && forall id | id in ids :: pick(columns(id)) == pick(others(id))
    ensures NoneFalls(Groups(ids, By(columns, pick)), Groups(more, By(others, pick)))
  {
    GroupsGrow(ids, By(columns, pick), more, By(others, pick));
  }

  lemma SummaryGrows(ids: set<string>, columns: string -> Columns, more: set<string>, others: string -> Columns)
    requires ids <= more && forall id | id in ids :: SameButBound(columns(id), others(id))
    ensures FiguresGrow(SummaryBy(ids, columns), SummaryBy(more, others))
  {
    SubsetCount(ids, more);
    SignersGrow(ids, columns, more, others);
    IdentitiesGrow(ids, columns, more, others);
    PickGrows(ids, columns, more, others, PickRuntime);
    PickGrows(ids, columns, more, others, PickOs);
    PickGrows(ids, columns, more, others, PickArchitecture);
    PickGrows(ids, columns, more, others, PickOutcome);
    PickGrows(ids, columns, more, others, PickMethodology);
    PickGrows(ids, columns, more, others, PickProcess);
  }

  /** The ids that got an identity in between, and those that arrived without one. */
  ghost function NewlyBound(log: seq<Submission>, later: seq<Submission>, ids: set<string>): set<string> {
    set id | id in ids && Bound(log, id).None? && Bound(later, id).Some?
  }

  ghost function ArrivedUnbound(later: seq<Submission>, ids: set<string>, more: set<string>): set<string> {
    set id | id in more && id !in ids && Bound(later, id).None?
  }

  lemma LocalCount(ids: set<string>, p: string -> Assurance, more: set<string>, q: string -> Assurance,
      bound: set<string>, arrived: set<string>)
    requires ids <= more && forall id | id in ids && p(id) == SigstoreKeylessCi :: q(id) == SigstoreKeylessCi
    requires forall id :: id in bound <==> id in ids && p(id) == LocalDevelopmentKey && q(id) == SigstoreKeylessCi
    requires forall id :: id in arrived <==> id in more && id !in ids && q(id) == LocalDevelopmentKey
    ensures CountOf(Groups(more, q), LocalDevelopmentKey) + |bound| == CountOf(Groups(ids, p), LocalDevelopmentKey) +
        |arrived|
  {
    CountOfGroups(ids, p, LocalDevelopmentKey);
    CountOfGroups(more, q, LocalDevelopmentKey);
    var before, after := Class(ids, p, LocalDevelopmentKey), Class(more, q, LocalDevelopmentKey);
    forall id
      ensures id in after || id in bound <==> id in before || id in arrived
    {
    }
    SameUnion(after, bound, before, arrived);
  }

  lemma SameUnion<T>(a: set<T>, b: set<T>, c: set<T>, d: set<T>)
    requires a !! b && c !! d && forall x :: x in a || x in b <==> x in c || x in d
    ensures |a| + |b| == |c| + |d|
  {
    assert a + b == c + d;
  }

  /** Every figure grows; the count without an identity falls by those that got one
      and rises by those that arrived without one; and without either, and without
      new evidence, nothing changes. */
  ghost predicate Compare(a: Summary, b: Summary, log: seq<Submission>, later: seq<Submission>, ids: set<string>,
      more: set<string>) {
    && FiguresGrow(a, b)
    && CountOf(b.assurance, LocalDevelopmentKey) + |NewlyBound(log, later, ids)| ==
       CountOf(a.assurance, LocalDevelopmentKey) + |ArrivedUnbound(later, ids, more)|
    && (more == ids && NewlyBound(log, later, ids) == {} ==> b == a)
  }

  lemma LogFigures(log: seq<Submission>, later: seq<Submission>, ids: set<string>, more: set<string>)
    requires log <= later && ids <= more && forall id | id in ids :: Seen(log, id)
    ensures Compare(LogSummary(log, ids), LogSummary(later, more), log, later, ids, more)
  {
    ColumnsLater(log, later, ids, more);
    SummaryGrows(ids, LogColumns(log), more, LogColumns(later));
    LogLocalCount(log, later, ids, more);
    if more == ids && NewlyBound(log, later, ids) == {} {
      LogStays(log, later, ids);
    }
  }

  lemma LogLocalCount(log: seq<Submission>, later: seq<Submission>, ids: set<string>, more: set<string>)
    requires log <= later && ids <= more && forall id | id in ids :: Seen(log, id)
    ensures CountOf(LogSummary(later, more).assurance, LocalDevelopmentKey) + |NewlyBound(log, later, ids)| ==
            CountOf(LogSummary(log, ids).assurance, LocalDevelopmentKey) + |ArrivedUnbound(later, ids, more)|
  {
    ColumnsLater(log, later, ids, more);
    var p, q := By(LogColumns(log), PickAssurance), By(LogColumns(later), PickAssurance);
    assert forall id :: p(id) == LogColumns(log)(id).assurance && q(id) == LogColumns(later)(id).assurance;
    LocalCount(ids, p, more, q, NewlyBound(log, later, ids), ArrivedUnbound(later, ids, more));
  }

  lemma LogStays(log: seq<Submission>, later: seq<Submission>, ids: set<string>)
    requires log <= later && (forall id | id in ids :: Seen(log, id)) && NewlyBound(log, later, ids) == {}
    ensures LogSummary(later, ids) == LogSummary(log, ids)
  {
    forall id | id in ids
      ensures LogColumns(log)(id) == LogColumns(later)(id)
    {
      LongerColumns(log, later, id);
      assert id !in NewlyBound(log, later, ids);
    }
    SameSummary(ids, LogColumns(log), LogColumns(later));
  }

  lemma ColumnsLater(log: seq<Submission>, later: seq<Submission>, ids: set<string>, more: set<string>)
    requires log <= later && forall id | id in ids :: Seen(log, id)
    ensures forall id | id in ids :: SameButBound(LogColumns(log)(id), LogColumns(later)(id))
    ensures forall id :: id in NewlyBound(log, later, ids) <==>
      id in ids && LogColumns(log)(id).assurance == LocalDevelopmentKey &&
          LogColumns(later)(id).assurance == SigstoreKeylessCi
    ensures forall id :: id in ArrivedUnbound(later, ids, more) <==>
      id in more && id !in ids && LogColumns(later)(id).assurance == LocalDevelopmentKey
  {
    forall id
      ensures LogColumns(log)(id).assurance == AssuranceIn(log, id) &&
          LogColumns(later)(id).assurance == AssuranceIn(later, id)
      ensures id in ids ==> SameButBound(LogColumns(log)(id), LogColumns(later)(id))
    {
      if id in ids {
        LongerColumns(log, later, id);
      }
    }
  }

  // ---- Behaviour ----

  lemma RunsGrow(db: Tables, after: Tables, transition: nat)
    requires Grows(db, after)
    ensures RunsOf(db, transition) <= RunsOf(after, transition)
  {
  }

  lemma BehaviorGrows(db: Tables, after: Tables, transition: nat)
    requires Grows(db, after)
    ensures NoneFalls(BehaviorGroups(db, transition), BehaviorGroups(after, transition))
  {
    RunsGrow(db, after, transition);
    var rows := BehaviorRows(db, transition);
    forall row | row in rows
      ensures row in BehaviorRows(after, transition) && KindIn(db)(row) == KindIn(after)(row)
    {
      assert after.findings[row.0] == db.findings[row.0];
    }
    GroupsGrow(rows, KindIn(db), BehaviorRows(after, transition), KindIn(after));
  }

  lemma KindStays(db: Tables, log: seq<Submission>, after: Tables, later: seq<Submission>, transition: nat,
      kind: Option<string>)
    requires Represents(db, log) && Represents(after, later) && log <= later
    requires EvidenceOf(after, transition) == EvidenceOf(db, transition)
    ensures CountOf(Groups(BehaviorRows(after, transition), KindIn(after)), kind) ==
            CountOf(Groups(BehaviorRows(db, transition), KindIn(db)), kind)
  {
    CountOfGroups(BehaviorRows(db, transition), KindIn(db), kind);
    CountOfGroups(BehaviorRows(after, transition), KindIn(after), kind);
    if kind.Some? {
      BehaviorConserved(db, log, transition, kind.value);
      BehaviorConserved(after, later, transition, kind.value);
      SizesStay(log, later, EvidenceOf(db, transition), kind.value);
    } else {
      assert Class(BehaviorRows(db, transition), KindIn(db), kind) == {};
      assert Class(BehaviorRows(after, transition), KindIn(after), kind) == {};
    }
  }

  /** The behaviour groups depend on the evidence of the transition alone. */
  lemma BehaviorStays(db: Tables, log: seq<Submission>, after: Tables, later: seq<Submission>, transition: nat)
    requires Represents(db, log) && Represents(after, later) && log <= later
    requires EvidenceOf(after, transition) == EvidenceOf(db, transition)
    ensures BehaviorGroups(after, transition) == BehaviorGroups(db, transition)
  {
    forall kind
      ensures CountOf(Groups(BehaviorRows(after, transition), KindIn(after)), kind) ==
              CountOf(Groups(BehaviorRows(db, transition), KindIn(db)), kind)
    {
      KindStays(db, log, after, later, transition, kind);
    }
    SameCounts(BehaviorRows(after, transition), KindIn(after), BehaviorRows(db, transition), KindIn(db));
  }

  lemma SizesStay(log: seq<Submission>, later: seq<Submission>, ids: set<string>, kind: string)
    requires log <= later && forall id | id in ids :: Seen(log, id)
    ensures forall id | id in ids :: Seen(later, id)
    ensures LogKindSizes(later, ids, kind) == LogKindSizes(log, ids, kind)
  {
    forall id | id in ids
      ensures Seen(later, id) && First(later, id) == First(log, id)
    {
      LongerLog(log, later, id);
    }
  }

  // ---- Two moments of a run ----

  /** The state `b` is reached from `a` by further steps. */
  ghost predicate Follows(hash: string -> int, a: State, b: State) {
    exists steps :: CanTake(hash, a, steps) && After(hash, a, steps) == b
  }

  ghost predicate IsLater(a: State, b: State) {
    Grows(a.db, b.db) && Submissions(a.log) <= Submissions(b.log)
  }

  lemma SubmissionsPrefix(log: seq<Entry>, later: seq<Entry>)
    requires log <= later
    ensures Submissions(log) <= Submissions(later)
  {
  }

  lemma FollowingIsLater(hash: string -> int, a: State, b: State)
    requires Inv(hash, a) && Follows(hash, a, b)
    ensures Inv(hash, b) && IsLater(a, b)
  {
    var steps :| CanTake(hash, a, steps) && After(hash, a, steps) == b;
    RunKeepsInv(hash, a, steps);
    RunGrows(hash, a, steps);
    SubmissionsPrefix(a.log, b.log);
  }

  lemma LaterTransitive(a: State, b: State, c: State)
    requires IsLater(a, b) && IsLater(b, c)
    ensures IsLater(a, c)
  {
    GrowsTransitive(a.db, b.db, c.db);
  }

  /** No evidence of the transition was added, and none of it got an identity. */
  ghost predicate Untouched(a: State, b: State, transition: nat) {
    && EvidenceOf(b.db, transition) == EvidenceOf(a.db, transition)
    && NewlyBound(Submissions(a.log), Submissions(b.log), EvidenceOf(a.db, transition)) == {}
  }

  ghost predicate BehaviorCompares(a: State, b: State, transition: nat) {
    && NoneFalls(BehaviorGroups(a.db, transition), BehaviorGroups(b.db, transition))
    && (EvidenceOf(b.db, transition) == EvidenceOf(a.db, transition) ==>
        BehaviorGroups(b.db, transition) == BehaviorGroups(a.db, transition))
  }

  /** How the figures of a transition, read at two moments, compare. */
  ghost predicate FiguresCompare(a: State, b: State, transition: nat) {
    Compare(Summarise(a.db, transition), Summarise(b.db, transition), Submissions(a.log), Submissions(b.log),
            EvidenceOf(a.db, transition), EvidenceOf(b.db, transition))
  }

  lemma BehaviorLater(hash: string -> int, a: State, b: State, transition: nat)
    requires Inv(hash, a) && Inv(hash, b) && IsLater(a, b)
    ensures BehaviorCompares(a, b, transition)
  {
    BehaviorGrows(a.db, b.db, transition);
    if EvidenceOf(b.db, transition) == EvidenceOf(a.db, transition) {
      BehaviorStays(a.db, Submissions(a.log), b.db, Submissions(b.log), transition);
    }
  }

  lemma FiguresLater(hash: string -> int, a: State, b: State, transition: nat)
    requires Inv(hash, a) && Inv(hash, b) && IsLater(a, b)
    ensures FiguresCompare(a, b, transition)
  {
    EvidenceGrows(a.db, b.db, transition);
    EvidenceIsSeen(a.db, Submissions(a.log), transition);
    SummaryScans(a.db, Submissions(a.log), transition);
    SummaryScans(b.db, Submissions(b.log), transition);
    LogFigures(Submissions(a.log), Submissions(b.log), EvidenceOf(a.db, transition), EvidenceOf(b.db, transition));
  }

  lemma EvidenceIsSeen(db: Tables, log: seq<Submission>, transition: nat)
    requires AllStored(db, log)
    ensures forall id | id in EvidenceOf(db, transition) :: Seen(log, id)
  {
  }

  /** Over every run, a figure of a transition that is read later is at least the one
      read earlier. Only the count of attestations without an identity can fall: it
      falls by those that got one and rises by those that arrived without one. And
      when no evidence of the transition was added and no identity bound to it in
      between, nothing has changed at all. */
  lemma {:induction false} FiguresOfRun(hash: string -> int, st: State, steps: seq<Step>, transition: nat)
    requires Inv(hash, st) && CanTake(hash, st, steps)
    ensures FiguresCompare(st, After(hash, st, steps), transition) &&
        BehaviorCompares(st, After(hash, st, steps), transition)
  {
    FollowingIsLater(hash, st, After(hash, st, steps));
    FiguresLater(hash, st, After(hash, st, steps), transition);
    BehaviorLater(hash, st, After(hash, st, steps), transition);
  }

  // ---- One answer, read query by query ----

  /** The states that the nine queries of one answer see, with other requests in between. */
  ghost predicate AreMoments(hash: string -> int, moments: seq<State>) {
    && |moments| == 9
    && Inv(hash, moments[0])
    && forall i | 0 <= i < |moments| - 1 :: Follows(hash, moments[i], moments[i + 1])
  }

  lemma {:induction false} MomentsSound(hash: string -> int, moments: seq<State>, i: nat)
    requires AreMoments(hash, moments) && i < |moments|
    ensures Inv(hash, moments[i])
  {
    if i > 0 {
      MomentsSound(hash, moments, i - 1);
      assert Follows(hash, moments[i - 1], moments[i - 1 + 1]);
      FollowingIsLater(hash, moments[i - 1], moments[i]);
    }
  }

  lemma NextIsLater(hash: string -> int, moments: seq<State>, i: nat)
    requires AreMoments(hash, moments) && i + 1 < |moments|
    ensures IsLater(moments[i], moments[i + 1])
  {
    MomentsSound(hash, moments, i);
    FollowingIsLater(hash, moments[i], moments[i + 1]);
  }

  lemma {:induction false} MomentsLater(hash: string -> int, moments: seq<State>, i: nat, j: nat)
    requires AreMoments(hash, moments) && i <= j < |moments|
    ensures IsLater(moments[i], moments[j])
    decreases j
  {
    if i < j {
      MomentsLater(hash, moments, i, j - 1);
      NextIsLater(hash, moments, j - 1);
      LaterTransitive(moments[i], moments[j - 1], moments[j]);
    }
  }

  /** The answer: the totals first, then one grouping after another. */
  ghost function Answer(moments: seq<State>, transition: nat): Summary
    requires |moments| == 9
  {
    var totals := Summarise(moments[0].db, transition);
    Summary(
      totals.verificationRuns, totals.uniqueEvidence, totals.uniqueSigners,
      Summarise(moments[1].db, transition).runtime,
      Summarise(moments[2].db, transition).os,
      Summarise(moments[3].db, transition).architecture,
      Summarise(moments[4].db, transition).outcome,
      Summarise(moments[5].db, transition).methodology,
      Summarise(moments[6].db, transition).process,
      Summarise(moments[8].db, transition).assurance)
  }

  /** What one query sees, against the first and the last. */
  ghost predicate Between(first: State, now: State, last: State, transition: nat) {
    && FiguresGrow(Summarise(first.db, transition), Summarise(now.db, transition))
    && FiguresGrow(Summarise(now.db, transition), Summarise(last.db, transition))
    && AddUpTo(Summarise(now.db, transition), Summarise(now.db, transition).verificationRuns)
    && (Untouched(first, last, transition) ==> Summarise(now.db, transition) == Summarise(first.db, transition))
  }

  lemma StaysUntouched(a: State, b: State, c: State, transition: nat)
    requires IsLater(a, b) && IsLater(b, c) && Untouched(a, c, transition)
    ensures Untouched(a, b, transition)
  {
    EvidenceGrows(a.db, b.db, transition);
    EvidenceGrows(b.db, c.db, transition);
    StillUnbound(a, b, c, EvidenceOf(a.db, transition));
  }

  lemma SeenBetween(hash: string -> int, first: State, now: State, last: State, transition: nat)
    requires Inv(hash, first) && Inv(hash, now) && Inv(hash, last) && IsLater(first, now) && IsLater(now, last)
    ensures Between(first, now, last, transition)
  {
    FiguresLater(hash, first, now, transition);
    FiguresLater(hash, now, last, transition);
    SummaryConserves(now.db, Submissions(now.log), transition);
    if Untouched(first, last, transition) {
      StaysUntouched(first, now, last, transition);
    }
  }

  lemma StillUnbound(a: State, b: State, c: State, ids: set<string>)
    requires Submissions(a.log) <= Submissions(b.log) <= Submissions(c.log)
    requires NewlyBound(Submissions(a.log), Submissions(c.log), ids) == {}
    ensures NewlyBound(Submissions(a.log), Submissions(b.log), ids) == {}
  {
    forall id | id in ids && Bound(Submissions(a.log), id).None?
      ensures Bound(Submissions(b.log), id).None?
    {
      if Bound(Submissions(b.log), id).Some? {
        BoundStays(Submissions(b.log), Submissions(c.log), id);
      }
      assert id !in NewlyBound(Submissions(a.log), Submissions(c.log), ids);
    }
  }

  ghost predicate AddUpTo(s: Summary, runs: nat) {
    && Total(s.runtime) == runs && Total(s.os) == runs && Total(s.architecture) == runs && Total(s.outcome) == runs
    && Total(s.methodology) == runs && Total(s.process) == runs && Total(s.assurance) == runs
  }

  /** Each grouping adds up to something from `low` to `high`. */
  ghost predicate AddUpBetween(s: Summary, low: nat, high: nat) {
    && low <= Total(s.runtime) <= high && low <= Total(s.os) <= high && low <= Total(s.architecture) <= high
    && low <= Total(s.outcome) <= high && low <= Total(s.methodology) <= high && low <= Total(s.process) <= high
    && low <= Total(s.assurance) <= high
  }

  /** An answer whose queries see different moments of a run: every grouping adds up
      to at least the runs it reports and at most those there are at the end, no
      figure is less than at the start or more than at the end, and when nothing of
      the transition was added or bound meanwhile it is the answer of one moment. */
  lemma AnswerDuringRun(hash: string -> int, moments: seq<State>, transition: nat)
    requires AreMoments(hash, moments)
    ensures var first, last := Summarise(moments[0].db, transition), Summarise(moments[8].db, transition);
      var answer := Answer(moments, transition);
      && AddUpBetween(answer, answer.verificationRuns, last.verificationRuns)
      && answer.uniqueEvidence == answer.verificationRuns && answer.uniqueSigners <= answer.verificationRuns
      && FiguresGrow(first, answer) && FiguresGrow(answer, last)
      && (Untouched(moments[0], moments[8], transition) ==> answer == first == last)
  {
    forall i: nat | i < 9
      ensures Between(moments[0], moments[i], moments[8], transition)
    {
      MomentsLater(hash, moments, 0, i);
      MomentsLater(hash, moments, i, 8);
      MomentsSound(hash, moments, i);
      MomentsSound(hash, moments, 8);
      SeenBetween(hash, moments[0], moments[i], moments[8], transition);
    }
    SummaryConserves(moments[0].db, Submissions(moments[0].log), transition);
  }
}
