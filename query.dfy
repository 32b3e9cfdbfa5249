/** The two relational operations the scheduler's scopes are built from:
    a WHERE filter over rows, and `ORDER BY <nullable timestamp> ASC`. */
module Query {
  import opened Wrappers

  /** SQL comparisons against a nullable column: a NULL operand makes the
      comparison unknown, and a WHERE clause drops the row. */
  predicate SqlLt(a: Option<int>, bound: int) { a.Some? && a.value < bound }
  predicate SqlLteq(a: Option<int>, bound: int) { a.Some? && a.value <= bound }
  predicate SqlGt(a: Option<int>, bound: int) { a.Some? && a.value > bound }

  /** The order of `ORDER BY col ASC` on a nullable column: smaller values
      first, NULLs after every value (PostgreSQL's default placement). */
  predicate AscNullsLast(a: Option<int>, b: Option<int>) {
    match (a, b)
    case (Some(x), Some(y)) => x <= y
    case (Some(_), None) => true
    case (None, None) => true
    case (None, Some(_)) => false
  }

  /** `WHERE p`: keeps exactly the rows that satisfy `p`, each as often as it
      occurs in the input. */
  function Filter<T(!new)>(s: seq<T>, p: T -> bool): (r: seq<T>)
    ensures forall x :: multiset(r)[x] == if p(x) then multiset(s)[x] else 0
    ensures forall x :: x in r <==> x in s && p(x)
    ensures |r| <= |s|
  {
    if s == [] then []
    else
      var rest := Filter(s[1..], p);
      assert s == [s[0]] + s[1..];
      if p(s[0]) then [s[0]] + rest else rest
  }

  ghost predicate SortedBy<T>(s: seq<T>, key: T -> Option<int>) {
    forall i, j :: 0 <= i < j < |s| ==> AscNullsLast(key(s[i]), key(s[j]))
  }

  /** Places `x` in the sorted sequence `s`, just before the first element
      whose key is not smaller than its own. */
  function Insert<T(!new)>(x: T, s: seq<T>, key: T -> Option<int>): (r: seq<T>)
    requires SortedBy(s, key)
    ensures SortedBy(r, key)
    ensures multiset(r) == multiset(s) + multiset{x}
  {
    if s == [] then [x]
    else if AscNullsLast(key(x), key(s[0])) then
      assert s == [s[0]] + s[1..];
      [x] + s
    else
      var rest := Insert(x, s[1..], key);
      assert s == [s[0]] + s[1..];
      HeadBelowAll(s[0], rest, s[1..], x, key);
      [s[0]] + rest
  }

  /** A row whose key is below that of `x` and of every row of `others` is
      below every row of a permutation of `others` plus `x`. */
  lemma HeadBelowAll<T>(h: T, rest: seq<T>, others: seq<T>, x: T, key: T -> Option<int>)
    requires multiset(rest) == multiset(others) + multiset{x}
    requires AscNullsLast(key(h), key(x))
    requires forall k :: 0 <= k < |others| ==> AscNullsLast(key(h), key(others[k]))
    ensures forall j :: 0 <= j < |rest| ==> AscNullsLast(key(h), key(rest[j]))
  {
    forall j | 0 <= j < |rest| ensures AscNullsLast(key(h), key(rest[j])) {
      assert rest[j] in multiset(rest);
      if rest[j] != x {
        assert rest[j] in multiset(others);
        var k :| 0 <= k < |others| && others[k] == rest[j];
      }
    }
  }

  /** When no key is NULL, sorted with NULLs last means ascending keys. */
  lemma SortedPresentKeysAscend<T>(r: seq<T>, key: T -> Option<int>)
    requires SortedBy(r, key)
    requires forall i :: 0 <= i < |r| ==> key(r[i]).Some?
    ensures forall i, j :: 0 <= i < j < |r| ==> key(r[i]).value <= key(r[j]).value
  {
    forall i, j | 0 <= i < j < |r| ensures key(r[i]).value <= key(r[j]).value {
      assert AscNullsLast(key(r[i]), key(r[j]));
    }
  }

  /** `ORDER BY key ASC`: a permutation of the rows in ascending key order,
      NULL keys last. Rows with equal keys may come in any order. */
  function OrderBy<T(!new)>(s: seq<T>, key: T -> Option<int>): (r: seq<T>)
    ensures SortedBy(r, key)
    ensures multiset(r) == multiset(s)
    ensures forall x :: x in r <==> x in s
  {
    if s == [] then []
    else
      assert s == [s[0]] + s[1..];
      var r := Insert(s[0], OrderBy(s[1..], key), key);
      assert forall x :: x in r <==> x in multiset(r);
      r
  }

  /** `WHERE p ORDER BY key ASC` when `p` admits no row with a NULL key:
      every key is present, and the keys ascend. */
  lemma OrderedSelectionAscends<T(!new)>(s: seq<T>, p: T -> bool, key: T -> Option<int>)
    requires forall x :: p(x) ==> key(x).Some?
    ensures var r := OrderBy(Filter(s, p), key);
      (forall i :: 0 <= i < |r| ==> key(r[i]).Some?)
      && forall i, j :: 0 <= i < j < |r| ==> key(r[i]).value <= key(r[j]).value
  {
    var r := OrderBy(Filter(s, p), key);
    assert forall i :: 0 <= i < |r| ==> r[i] in Filter(s, p);
    SortedPresentKeysAscend(r, key);
  }
}
