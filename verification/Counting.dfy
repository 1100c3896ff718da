/** Counting and grouping finite sets of rows. */
module Counting {

  /** A key of a map that is not empty. */
  ghost function Pick<K(!new), V>(m: map<K, V>): (k: K)
    requires m != map[]
    ensures k in m
  {
    var k :| k in m;
    k
  }

  ghost function Total<K(!new)>(m: map<K, nat>): nat
    decreases |m|
  {
    if m == map[] then 0 else var k := Pick(m); m[k] + Total(m - {k})
  }

  lemma {:induction false} TotalRemove<K(!new)>(m: map<K, nat>, k: K)
    requires k in m
    ensures Total(m) == m[k] + Total(m - {k})
    decreases |m|
  {
    var j := Pick(m);
    if j != k {
      TotalRemove(m - {j}, k);
      TotalRemove(m - {k}, j);
      assert m - {j} - {k} == m - {k} - {j};
    }
  }

  /** Renaming the keys one to one keeps the total. */
  lemma {:induction false} TotalRename<K(!new), L(!new)>(m: map<K, nat>, n: map<L, nat>, rename: K -> L)
    requires forall k | k in m :: rename(k) in n && n[rename(k)] == m[k]
    requires forall l | l in n :: exists k :: k in m && rename(k) == l
    requires forall j, k | j in m && k in m && rename(j) == rename(k) :: j == k
    ensures Total(m) == Total(n)
    decreases |m|
  {
    if m == map[] {
      assert n.Keys == {};
    } else {
      var k := Pick(m);
      TotalRemove(n, rename(k));
      forall l | l in n - {rename(k)}
        ensures exists j :: j in m - {k} && rename(j) == l
      {
        var j :| j in m && rename(j) == l;
      }
      TotalRename(m - {k}, n - {rename(k)}, rename);
    }
  }

  /** The rows with one value in the grouped column. */
  ghost function Class<T(!new), V(!new)>(rows: set<T>, column: T -> V, value: V): set<T> {
    set x | x in rows && column(x) == value
  }

  ghost function Values<T(!new), V(!new)>(rows: set<T>, column: T -> V): set<V> {
    set x | x in rows :: column(x)
  }

  /** How many rows there are for each value of the column. */
  ghost function Groups<T(!new), V(!new)>(rows: set<T>, column: T -> V): map<V, nat> {
    map v | v in Values(rows, column) :: |Class(rows, column, v)|
  }

  ghost function Sizes<T(!new), V(!new)>(rows: set<T>, column: T -> V, values: set<V>): map<V, nat> {
    map v | v in values :: |Class(rows, column, v)|
  }

  /** Dividing rows among values loses no row and counts none twice. */
  lemma {:induction false} ClassesTotal<T(!new), V(!new)>(rows: set<T>, column: T -> V, values: set<V>)
    requires forall x | x in rows :: column(x) in values
    ensures Total(Sizes(rows, column, values)) == |rows|
    decreases |values|
  {
    var sizes := Sizes(rows, column, values);
    assert sizes.Keys == values;
    if values == {} {
      assert rows == {} && sizes == map[];
    } else {
      var v := Pick(sizes);
      var rest := rows - Class(rows, column, v);
      assert rows == rest + Class(rows, column, v);
      forall w | w != v
        ensures Class(rest, column, w) == Class(rows, column, w)
      {
      }
      assert Sizes(rest, column, values - {v}) == sizes - {v};
      ClassesTotal(rest, column, values - {v});
    }
  }

  lemma GroupsTotal<T(!new), V(!new)>(rows: set<T>, column: T -> V)
    ensures Total(Groups(rows, column)) == |rows|
  {
    ClassesTotal(rows, column, Values(rows, column));
    assert Groups(rows, column) == Sizes(rows, column, Values(rows, column));
  }

  /** `onto` takes `rows` one to one onto `others`. */
  ghost predicate Matches<T(!new), U(!new)>(rows: set<T>, others: set<U>, onto: T -> U) {
    && (forall x | x in rows :: onto(x) in others)
    && (forall y | y in others :: exists x :: x in rows && onto(x) == y)
    && (forall x, y | x in rows && y in rows && onto(x) == onto(y) :: x == y)
  }

  lemma {:induction false} MatchesCount<T(!new), U(!new)>(rows: set<T>, others: set<U>, onto: T -> U)
    requires Matches(rows, others, onto)
    ensures |rows| == |others|
    decreases |rows|
  {
    if x :| x in rows {
      forall y | y in others - {onto(x)}
        ensures exists z :: z in rows - {x} && onto(z) == y
      {
        var z :| z in rows && onto(z) == y;
      }
      MatchesCount(rows - {x}, others - {onto(x)}, onto);
    } else {
      assert others == {};
    }
  }

  /** Rows that correspond one to one, with the same values, have the same groups. */
  lemma MatchesGroups<T(!new), U(!new), V(!new)>(rows: set<T>, column: T -> V, others: set<U>, other: U -> V,
      onto: T -> U)
    requires Matches(rows, others, onto)
    requires forall x | x in rows :: other(onto(x)) == column(x)
    ensures Groups(rows, column) == Groups(others, other)
  {
    forall v
      ensures |Class(rows, column, v)| == |Class(others, other, v)|
    {
      forall y | y in Class(others, other, v)
        ensures exists x :: x in Class(rows, column, v) && onto(x) == y
      {
        var x :| x in rows && onto(x) == y;
      }
      MatchesCount(Class(rows, column, v), Class(others, other, v), onto);
    }
    forall v
      ensures v in Values(rows, column) <==> v in Values(others, other)
    {
      if v in Values(rows, column) {
        var x :| x in rows && column(x) == v;
        assert other(onto(x)) == v;
      }
      if v in Values(others, other) {
        var y :| y in others && other(y) == v;
        var x :| x in rows && onto(x) == y;
      }
    }
  }

  /** Only the values on the rows themselves matter. */
  lemma GroupsAgree<T(!new), V(!new)>(rows: set<T>, column: T -> V, other: T -> V)
    requires forall x | x in rows :: column(x) == other(x)
    ensures Groups(rows, column) == Groups(rows, other) && Values(rows, column) == Values(rows, other)
  {
    forall v
      ensures Class(rows, column, v) == Class(rows, other, v)
    {
    }
  }

  /** How many rows have a value. */
  ghost function CountOf<V(!new)>(groups: map<V, nat>, value: V): nat {
    if value in groups then groups[value] else 0
  }

  lemma CountOfGroups<T(!new), V(!new)>(rows: set<T>, column: T -> V, value: V)
    ensures CountOf(Groups(rows, column), value) == |Class(rows, column, value)|
  {
    if value !in Values(rows, column) {
      assert Class(rows, column, value) == {};
    }
  }

  lemma {:induction false} SubsetCount<T(!new)>(a: set<T>, b: set<T>)
    requires a <= b
    ensures |a| <= |b|
  {
    assert b == a + (b - a);
  }

  /** Equal counts are equal groups. */
  lemma SameCounts<T(!new), U(!new), V(!new)>(rows: set<T>, column: T -> V, others: set<U>, other: U -> V)
    requires forall v :: CountOf(Groups(rows, column), v) == CountOf(Groups(others, other), v)
    ensures Groups(rows, column) == Groups(others, other)
  {
    forall v
      ensures v in Groups(rows, column) <==> v in Groups(others, other)
    {
      CountsTell(rows, column, v);
      CountsTell(others, other, v);
    }
    forall v | v in Groups(rows, column)
      ensures Groups(rows, column)[v] == Groups(others, other)[v]
    {
      assert CountOf(Groups(rows, column), v) == CountOf(Groups(others, other), v);
    }
  }

  lemma CountsTell<T(!new), V(!new)>(rows: set<T>, column: T -> V, value: V)
    ensures value in Groups(rows, column) <==> CountOf(Groups(rows, column), value) > 0
  {
    if x :| x in rows && column(x) == value {
      assert x in Class(rows, column, value);
    }
  }

  ghost predicate NoneFalls<V(!new)>(groups: map<V, nat>, later: map<V, nat>) {
    forall v :: CountOf(groups, v) <= CountOf(later, v)
  }

  /** With more rows, and the same values on the old ones, no count falls. */
  lemma GroupsGrow<T(!new), V(!new)>(rows: set<T>, column: T -> V, more: set<T>, other: T -> V)
    requires rows <= more && forall x | x in rows :: column(x) == other(x)
    ensures NoneFalls(Groups(rows, column), Groups(more, other))
    ensures Values(rows, column) <= Values(more, other)
  {
    forall v
      ensures CountOf(Groups(rows, column), v) <= CountOf(Groups(more, other), v)
    {
      CountOfGroups(rows, column, v);
      CountOfGroups(more, other, v);
      SubsetCount(Class(rows, column, v), Class(more, other, v));
    }
  }

  /** Distinct values are no more than rows. */
  lemma {:induction false} ValuesCount<T(!new), V(!new)>(rows: set<T>, column: T -> V)
    ensures |Values(rows, column)| <= |rows|
    decreases |rows|
  {
    if x :| x in rows {
      ValuesCount(rows - {x}, column);
      assert Values(rows, column) == Values(rows - {x}, column) + {column(x)};
    } else {
      assert Values(rows, column) == {};
    }
  }
}
