/** What the hosted database does with a table's rows on the model's behalf:
    column values, the ORDER BY comparison, filtering and windowing.
    None of this is code of the front end; the query layer only names clauses,
    an order and a window, and these functions give them their meaning. */
module Rows {

  /** A column value as the database sees it. */
  datatype Value = Null | Bool(b: bool) | Num(n: int) | Str(s: string)

  /** Code-point lexicographic order on text (the "C" collation). */
  predicate StrLe(a: string, b: string)
    decreases |a|
  {
    a == [] || (b != [] && (a[0] < b[0] || (a[0] == b[0] && StrLe(a[1..], b[1..]))))
  }

  lemma {:induction false} StrLeTotal(a: string, b: string)
    ensures StrLe(a, b) || StrLe(b, a)
    decreases |a|
  {
    if a != [] && b != [] && a[0] == b[0] {
      StrLeTotal(a[1..], b[1..]);
    }
  }

  /** Rank of a value's kind; only matters between values of different kinds,
      which one column never holds; NULL ranks last. */
  function KindRank(v: Value): nat {
    match v
    case Bool(_) => 0
    case Num(_) => 1
    case Str(_) => 2
    case Null => 3
  }

  /** Ascending order with NULLS LAST, PostgreSQL's default for ASC. */
  predicate ValueLe(a: Value, b: Value) {
    if KindRank(a) != KindRank(b) then KindRank(a) < KindRank(b)
    else match a
      case Null => true
      case Bool(x) => !x || b.b
      case Num(x) => x <= b.n
      case Str(x) => StrLe(x, b.s)
  }

  lemma ValueLeTotal(a: Value, b: Value)
    ensures ValueLe(a, b) || ValueLe(b, a)
  {
    if a.Str? && b.Str? {
      StrLeTotal(a.s, b.s);
    }
  }

  /** `a` may come before `b` in an ORDER BY in the given direction. DESC is the
      exact reverse of ASC, so it puts NULLs first, as PostgreSQL does. */
  predicate Precedes(a: Value, b: Value, ascending: bool) {
    if ascending then ValueLe(a, b) else ValueLe(b, a)
  }

  lemma PrecedesTotal(a: Value, b: Value, ascending: bool)
    ensures Precedes(a, b, ascending) || Precedes(b, a, ascending)
  {
    ValueLeTotal(a, b);
  }

  /** Every row precedes the next one under `key`. */
  predicate SortedBy<T>(s: seq<T>, key: T -> Value, ascending: bool) {
    forall i :: 0 < i < |s| ==> Precedes(key(s[i - 1]), key(s[i]), ascending)
  }

  /** Insert `x` before the first row it precedes. */
  function Insert<T>(x: T, s: seq<T>, key: T -> Value, ascending: bool): (r: seq<T>)
    ensures |r| == |s| + 1
  {
    if s == [] || Precedes(key(x), key(s[0]), ascending) then [x] + s
    else [s[0]] + Insert(x, s[1..], key, ascending)
  }

  /** The rows in ORDER BY order; among rows with equal keys the order is one
      the database may pick. */
  function SortBy<T>(s: seq<T>, key: T -> Value, ascending: bool): (r: seq<T>)
    ensures |r| == |s|
  {
    if s == [] then [] else Insert(s[0], SortBy(s[1..], key, ascending), key, ascending)
  }

  lemma {:induction false} InsertPermutes<T>(x: T, s: seq<T>, key: T -> Value, ascending: bool)
    ensures multiset(Insert(x, s, key, ascending)) == multiset{x} + multiset(s)
    decreases |s|
  {
    if s != [] && !Precedes(key(x), key(s[0]), ascending) {
      InsertPermutes(x, s[1..], key, ascending);
      assert s == [s[0]] + s[1..];
    }
  }

  lemma {:induction false} InsertSorted<T>(x: T, s: seq<T>, key: T -> Value, ascending: bool)
    requires SortedBy(s, key, ascending)
    ensures SortedBy(Insert(x, s, key, ascending), key, ascending)
    ensures var r := Insert(x, s, key, ascending);
      r[0] == x || (s != [] && r[0] == s[0])
    decreases |s|
  {
    if s != [] && !Precedes(key(x), key(s[0]), ascending) {
      PrecedesTotal(key(x), key(s[0]), ascending);
      InsertSorted(x, s[1..], key, ascending);
      var t := Insert(x, s[1..], key, ascending);
      var r := [s[0]] + t;
      forall i | 0 < i < |r|
        ensures Precedes(key(r[i - 1]), key(r[i]), ascending)
      {
        if i > 1 {
          assert r[i - 1] == t[i - 2] && r[i] == t[i - 1];
        }
      }
    }
  }

  /** The ORDER BY result is a permutation of its input, in order. */
  lemma {:induction false} SortByCorrect<T>(s: seq<T>, key: T -> Value, ascending: bool)
    ensures multiset(SortBy(s, key, ascending)) == multiset(s)
    ensures SortedBy(SortBy(s, key, ascending), key, ascending)
    decreases |s|
  {
    if s != [] {
      SortByCorrect(s[1..], key, ascending);
      InsertPermutes(s[0], SortBy(s[1..], key, ascending), key, ascending);
      InsertSorted(s[0], SortBy(s[1..], key, ascending), key, ascending);
      assert s == [s[0]] + s[1..];
    }
  }

  /** Sorting keeps exactly the rows it was given. */
  lemma SortByMembers<T>(s: seq<T>, key: T -> Value, ascending: bool)
    ensures forall x :: x in SortBy(s, key, ascending) <==> x in s
  {
    SortByCorrect(s, key, ascending);
    forall x
      ensures x in SortBy(s, key, ascending) <==> x in s
    {
      assert x in SortBy(s, key, ascending) <==> x in multiset(SortBy(s, key, ascending));
      assert x in s <==> x in multiset(s);
    }
  }

  /** The rows satisfying `p`, in their original order (a WHERE clause). */
  function Filter<T>(s: seq<T>, p: T -> bool): (r: seq<T>)
    ensures |r| <= |s|
  {
    if s == [] then []
    else if p(s[0]) then [s[0]] + Filter(s[1..], p)
    else Filter(s[1..], p)
  }

  /** A row is kept exactly when it is in the input and satisfies the predicate. */
  lemma {:induction false} FilterMembers<T>(s: seq<T>, p: T -> bool)
    ensures forall x :: x in Filter(s, p) <==> x in s && p(x)
    decreases |s|
  {
    if s != [] {
      FilterMembers(s[1..], p);
      assert s == [s[0]] + s[1..];
    }
  }

  /** Filtering distributes over concatenation, so it keeps the original order. */
  lemma {:induction false} FilterAppend<T>(a: seq<T>, b: seq<T>, p: T -> bool)
    ensures Filter(a + b, p) == Filter(a, p) + Filter(b, p)
    decreases |a|
  {
    if a != [] {
      FilterAppend(a[1..], b, p);
      assert (a + b)[1..] == a[1..] + b;
    } else {
      assert a + b == b;
    }
  }

  /** Two predicates that agree on every row select the same rows. */
  lemma {:induction false} FilterSame<T>(s: seq<T>, p: T -> bool, q: T -> bool)
    requires forall x :: p(x) == q(x)
    ensures Filter(s, p) == Filter(s, q)
    decreases |s|
  {
    if s != [] {
      FilterSame(s[1..], p, q);
    }
  }

  /** Rows `from` to `to`, both inclusive, of `s` (PostgREST's `range`);
      the part of the window past the end of `s` is simply missing. */
  function Window<T>(s: seq<T>, from: nat, to: int): (r: seq<T>)
    ensures |r| <= |s|
  {
    var lo := if from <= |s| then from else |s|;
    var hi := if to + 1 < lo then lo else if to + 1 <= |s| then to + 1 else |s|;
    s[lo..hi]
  }

  /** A window holds the rows at its own offsets. */
  lemma WindowAt<T>(s: seq<T>, from: nat, to: int, k: nat)
    requires k < |Window(s, from, to)|
    ensures from + k <= to && from + k < |s| && Window(s, from, to)[k] == s[from + k]
  {
  }

  /** A window keeps the order of what it is cut from and adds no row. */
  lemma WindowOfSorted<T>(s: seq<T>, from: nat, to: int, key: T -> Value, ascending: bool)
    requires SortedBy(s, key, ascending)
    ensures SortedBy(Window(s, from, to), key, ascending)
    ensures forall x :: x in Window(s, from, to) ==> x in s
  {
    var w := Window(s, from, to);
    forall i | 0 < i < |w|
      ensures Precedes(key(w[i - 1]), key(w[i]), ascending)
    {
      WindowAt(s, from, to, i - 1);
      WindowAt(s, from, to, i);
    }
    forall x | x in w
      ensures x in s
    {
      var k :| 0 <= k < |w| && w[k] == x;
      WindowAt(s, from, to, k);
    }
  }
}
