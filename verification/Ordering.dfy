/** Total orders, and the one increasing listing of a finite set. */
module Ordering {
  import opened Wrappers

  ghost predicate TotalOrder<T(!new)>(le: (T, T) -> bool) {
    && (forall x :: le(x, x))
    && (forall x, y :: le(x, y) || le(y, x))
    && (forall x, y :: le(x, y) && le(y, x) ==> x == y)
    && (forall x, y, z :: le(x, y) && le(y, z) ==> le(x, z))
  }

  predicate Sorted<T>(le: (T, T) -> bool, xs: seq<T>) {
    forall i, j | 0 <= i < j < |xs| :: le(xs[i], xs[j])
  }

  predicate Distinct<T(==)>(xs: seq<T>) {
    forall i, j | 0 <= i < j < |xs| :: xs[i] != xs[j]
  }

  /** Each element before all later ones. */
  predicate Increasing<T(==)>(le: (T, T) -> bool, xs: seq<T>) {
    Sorted(le, xs) && Distinct(xs)
  }

  function Elements<T>(xs: seq<T>): set<T> {
    set x | x in xs
  }

  lemma {:induction false} LeastExists<T(!new)>(le: (T, T) -> bool, s: set<T>) returns (m: T)
    requires TotalOrder(le) && s != {}
    ensures m in s && forall x | x in s :: le(m, x)
  {
    m :| m in s;
    if s != {m} {
      var rest := LeastExists(le, s - {m});
      if le(rest, m) {
        m := rest;
      }
    }
  }

  ghost function Least<T(!new)>(le: (T, T) -> bool, s: set<T>): (m: T)
    requires TotalOrder(le) && s != {}
    ensures m in s && forall x | x in s :: le(m, x)
  {
    assert exists m :: m in s && forall x | x in s :: le(m, x) by {
      var m := LeastExists(le, s);
    }
    var m :| m in s && forall x | x in s :: le(m, x);
    m
  }

  /** The elements of a set, least first. */
  ghost function Ordered<T(!new)>(le: (T, T) -> bool, s: set<T>): (xs: seq<T>)
    requires TotalOrder(le)
    ensures |xs| == |s|
    ensures forall x :: x in xs <==> x in s
    decreases |s|
  {
    if s == {} then [] else [Least(le, s)] + Ordered(le, s - {Least(le, s)})
  }

  lemma PrependIncreases<T(!new)>(le: (T, T) -> bool, m: T, rest: seq<T>)
    requires Increasing(le, rest) && forall x | x in rest :: le(m, x) && m != x
    ensures Increasing(le, [m] + rest)
  {
    var xs := [m] + rest;
    forall i, j | 0 <= i < j < |xs|
      ensures le(xs[i], xs[j]) && xs[i] != xs[j]
    {
      assert xs[j] == rest[j - 1];
      assert rest[j - 1] in rest;
    }
  }

  lemma {:induction false} OrderedIncreases<T(!new)>(le: (T, T) -> bool, s: set<T>)
    requires TotalOrder(le)
    ensures Increasing(le, Ordered(le, s)) && Elements(Ordered(le, s)) == s
    decreases |s|
  {
    if s != {} {
      var m := Least(le, s);
      OrderedIncreases(le, s - {m});
      PrependIncreases(le, m, Ordered(le, s - {m}));
    }
  }

  /** An increasing listing is determined by its elements. */
  lemma {:induction false} IncreasingUnique<T(!new)>(le: (T, T) -> bool, xs: seq<T>, ys: seq<T>)
    requires TotalOrder(le) && Increasing(le, xs) && Increasing(le, ys)
    requires Elements(xs) == Elements(ys)
    ensures xs == ys
    decreases |xs|
  {
    if xs == [] {
      assert forall i | 0 <= i < |ys| :: ys[i] in Elements(ys);
    } else {
      assert xs[0] in Elements(ys) && ys != [];
      assert ys[0] in Elements(xs);
      assert xs[0] == ys[0];
      TailElements(xs);
      TailElements(ys);
      IncreasingUnique(le, xs[1..], ys[1..]);
    }
  }

  lemma TailElements<T>(xs: seq<T>)
    requires xs != [] && Distinct(xs)
    ensures Elements(xs[1..]) == Elements(xs) - {xs[0]} && Distinct(xs[1..])
  {
    forall x | x in Elements(xs) - {xs[0]}
      ensures x in xs[1..]
    {
      var i :| 0 <= i < |xs| && xs[i] == x;
      assert xs[1..][i - 1] == x;
    }
  }

  // ---- Text ----

  /** The order of texts, code point by code point. */
  predicate TextLe(a: string, b: string) {
    a == "" || (b != "" && (a[0] < b[0] || (a[0] == b[0] && TextLe(a[1..], b[1..]))))
  }

  predicate TextLt(a: string, b: string) {
    TextLe(a, b) && a != b
  }

  lemma {:induction false} TextLeOrder(a: string, b: string, c: string)
    ensures TextLe(a, a)
    ensures TextLe(a, b) || TextLe(b, a)
    ensures TextLe(a, b) && TextLe(b, a) ==> a == b
    ensures TextLe(a, b) && TextLe(b, c) ==> TextLe(a, c)
  {
    if a != "" {
      TextLeOrder(a[1..], if b == "" then "" else b[1..], if c == "" then "" else c[1..]);
      if b != "" && a[0] == b[0] && a[1..] == b[1..] {
        assert a == [a[0]] + a[1..] == b;
      }
    }
  }

  /** What orders of records need to know of three values of a field. */
  lemma TextLeFacts(a: string, b: string, c: string)
    ensures TextLe(a, b) || TextLe(b, a)
    ensures TextLe(a, b) && TextLe(b, a) ==> a == b
    ensures TextLe(a, b) && TextLe(b, c) ==> TextLe(a, c) && (a == c ==> a == b)
  {
    TextLeOrder(a, b, c);
    TextLeOrder(b, a, "");
  }

  /** A missing text comes first. */
  predicate OptionalTextLe(a: Option<string>, b: Option<string>) {
    a.None? || (b.Some? && TextLe(a.value, b.value))
  }

  lemma OptionalTextLeFacts(a: Option<string>, b: Option<string>, c: Option<string>)
    ensures OptionalTextLe(a, b) || OptionalTextLe(b, a)
    ensures OptionalTextLe(a, b) && OptionalTextLe(b, a) ==> a == b
    ensures OptionalTextLe(a, b) && OptionalTextLe(b, c) ==> OptionalTextLe(a, c) && (a == c ==> a == b)
  {
    if a.Some? && b.Some? {
      TextLeFacts(a.value, b.value, if c.Some? then c.value else "");
    }
  }

  /** The order of lists of texts, text by text. */
  predicate TextsLe(a: seq<string>, b: seq<string>) {
    a == [] || (b != [] && if a[0] != b[0] then TextLe(a[0], b[0]) else TextsLe(a[1..], b[1..]))
  }

  lemma {:induction false} TextsLeFacts(a: seq<string>, b: seq<string>, c: seq<string>)
    ensures TextsLe(a, b) || TextsLe(b, a)
    ensures TextsLe(a, b) && TextsLe(b, a) ==> a == b
    ensures TextsLe(a, b) && TextsLe(b, c) ==> TextsLe(a, c) && (a == c ==> a == b)
    decreases |a|
  {
    if a != [] && b != [] {
      TextLeFacts(a[0], b[0], if c == [] then "" else c[0]);
      TextsLeFacts(a[1..], b[1..], if c == [] then [] else c[1..]);
      if a[0] == b[0] && a[1..] == b[1..] {
        assert a == [a[0]] + a[1..] == b;
      }
      if c != [] && a == c {
        assert a[1..] == c[1..];
      }
    }
  }

  lemma TextLeTotal()
    ensures TotalOrder(TextLe)
  {
    forall a, b, c
      ensures TextLe(a, a) && (TextLe(a, b) || TextLe(b, a))
      ensures TextLe(a, b) && TextLe(b, a) ==> a == b
      ensures TextLe(a, b) && TextLe(b, c) ==> TextLe(a, c)
    {
      TextLeOrder(a, b, c);
    }
  }

  /** The order of pairs, first component first. */
  predicate PairLe(a: (string, string), b: (string, string)) {
    if a.0 == b.0 then TextLe(a.1, b.1) else TextLe(a.0, b.0)
  }

  lemma PairLeTotal()
    ensures TotalOrder(PairLe)
  {
    forall a, b, c
      ensures PairLe(a, a) && (PairLe(a, b) || PairLe(b, a))
      ensures PairLe(a, b) && PairLe(b, a) ==> a == b
      ensures PairLe(a, b) && PairLe(b, c) ==> PairLe(a, c)
    {
      TextLeOrder(a.0, b.0, c.0);
      TextLeOrder(b.0, c.0, a.0);
      TextLeOrder(a.1, b.1, c.1);
    }
  }

  // ---- What the orders mean ----

  /** The texts agree before position `i`, where `a` has the smaller code point. */
  predicate SmallerAt(a: string, b: string, i: nat) {
    i < |a| && i < |b| && a[..i] == b[..i] && a[i] < b[i]
  }

  /** One text comes before another exactly when it is the start of it, or has the
      smaller code point where they first differ. */
  lemma {:induction false} TextLeMeans(a: string, b: string)
    ensures TextLe(a, b) <==> a <= b || exists i: nat :: SmallerAt(a, b, i)
  {
    if a != "" && b != "" {
      TextLeMeans(a[1..], b[1..]);
      if a[0] == b[0] {
        ShiftedPrefix(a, b);
        if i: nat :| SmallerAt(a, b, i) {
          assert i > 0;
          assert a[1..][..i - 1] == a[..i][1..] && b[1..][..i - 1] == b[..i][1..];
          assert SmallerAt(a[1..], b[1..], i - 1);
        }
        if i: nat :| SmallerAt(a[1..], b[1..], i) {
          assert a[..i + 1] == [a[0]] + a[1..][..i] && b[..i + 1] == [b[0]] + b[1..][..i];
          assert SmallerAt(a, b, i + 1);
        }
      } else {
        if a[0] < b[0] {
          assert a[..0] == b[..0];
          assert SmallerAt(a, b, 0);
        }
        assert forall i: nat | 0 < i <= |a| && i <= |b| :: a[..i][0] == a[0] && b[..i][0] == b[0];
      }
    }
  }

  lemma ShiftedPrefix(a: string, b: string)
    requires a != "" && b != "" && a[0] == b[0]
    ensures a <= b <==> a[1..] <= b[1..]
  {
    assert a == [a[0]] + a[1..] && b == [b[0]] + b[1..];
  }

  /** Pairs are in the order of their first texts, and of their second where those agree. */
  lemma PairLeMeans(a: (string, string), b: (string, string))
    ensures a.0 != b.0 ==> (PairLe(a, b) <==> TextLt(a.0, b.0))
    ensures a.0 == b.0 ==> (PairLe(a, b) <==> TextLe(a.1, b.1))
  {
  }

  /** The lists agree before position `i`, where `a` has the smaller text. */
  predicate SmallerTextAt(a: seq<string>, b: seq<string>, i: nat) {
    i < |a| && i < |b| && a[..i] == b[..i] && TextLt(a[i], b[i])
  }

  /** One list of texts comes before another exactly when it is the start of it, or has
      the smaller text where they first differ. */
  lemma {:induction false} TextsLeMeans(a: seq<string>, b: seq<string>)
    ensures TextsLe(a, b) <==> a <= b || exists i: nat :: SmallerTextAt(a, b, i)
  {
    if a != [] && b != [] {
      assert a == [a[0]] + a[1..] && b == [b[0]] + b[1..];
      if a[0] == b[0] {
        TextsLeMeans(a[1..], b[1..]);
        if i: nat :| SmallerTextAt(a, b, i) {
          assert a[1..][..i - 1] == a[..i][1..] && b[1..][..i - 1] == b[..i][1..];
          assert SmallerTextAt(a[1..], b[1..], i - 1);
        }
        if i: nat :| SmallerTextAt(a[1..], b[1..], i) {
          assert a[..i + 1] == [a[0]] + a[1..][..i] && b[..i + 1] == [b[0]] + b[1..][..i];
          assert SmallerTextAt(a, b, i + 1);
        }
      } else {
        if TextLe(a[0], b[0]) {
          assert SmallerTextAt(a, b, 0);
        }
        assert forall i: nat | 0 < i <= |a| && i <= |b| :: a[..i][0] == a[0] && b[..i][0] == b[0];
      }
    }
  }

  /** A missing text comes before any other. */
  predicate OptionalTextLt(a: Option<string>, b: Option<string>) {
    b.Some? && (a.None? || TextLt(a.value, b.value))
  }
}
