/** Ordering of query results. An SQL `ORDER BY` and JavaScript's `sort` both promise
    a result that is sorted by the given comparison and holds the same rows; neither
    promise says how rows that compare equal are arranged. `Sort` is one such
    ordering, and the contracts below state only what every such ordering has. */
module Sorting {

  /** `le` is a total preorder: any two rows compare, and comparison chains. */
  ghost predicate TotalPreorder<T(!new)>(le: (T, T) -> bool) {
    && (forall x, y :: le(x, y) || le(y, x))
    && (forall x, y, z :: le(x, y) && le(y, z) ==> le(x, z))
  }

  predicate SortedBy<T>(le: (T, T) -> bool, s: seq<T>) {
    forall i, j :: 0 <= i < j < |s| ==> le(s[i], s[j])
  }

  /** Places `x` after every leading row that is at most `x`. */
  function Insert<T>(le: (T, T) -> bool, x: T, s: seq<T>): (r: seq<T>)
    ensures multiset(r) == multiset(s) + multiset{x}
  {
    if s == [] then [x]
    else if le(s[0], x) then
      assert s == [s[0]] + s[1..];
      [s[0]] + Insert(le, x, s[1..])
    else [x] + s
  }

  lemma InsertMembers<T>(le: (T, T) -> bool, x: T, s: seq<T>, y: T)
    ensures y in Insert(le, x, s) <==> y == x || y in s
  {
    assert y in Insert(le, x, s) <==> y in multiset(Insert(le, x, s));
  }

  /** Every row of a sorted `s` is at least its first row. */
  lemma FirstIsLeast<T>(le: (T, T) -> bool, s: seq<T>, y: T)
    requires SortedBy(le, s) && s != [] && y in s[1..]
    ensures le(s[0], y)
  {
    var j :| 0 <= j < |s[1..]| && s[1..][j] == y;
    assert s[1 + j] == y;
  }

  lemma {:induction false} InsertSorted<T(!new)>(le: (T, T) -> bool, x: T, s: seq<T>)
    requires TotalPreorder(le)
    requires SortedBy(le, s)
    ensures SortedBy(le, Insert(le, x, s))
  {
    if s != [] {
      if le(s[0], x) {
        var rest := Insert(le, x, s[1..]);
        InsertSorted(le, x, s[1..]);
        forall k | 0 <= k < |rest| ensures le(s[0], rest[k]) {
          InsertMembers(le, x, s[1..], rest[k]);
          if rest[k] != x {
            FirstIsLeast(le, s, rest[k]);
          }
        }
        var r := [s[0]] + rest;
        forall i, j | 0 <= i < j < |r| ensures le(r[i], r[j]) {
          if i == 0 {
            assert r[j] == rest[j - 1];
          } else {
            assert r[i] == rest[i - 1] && r[j] == rest[j - 1];
          }
        }
      } else {
        var r := [x] + s;
        assert le(x, s[0]);
        forall i, j | 0 <= i < j < |r| ensures le(r[i], r[j]) {
          if i == 0 {
            assert r[j] == s[j - 1];
            if j > 1 {
              assert le(s[0], s[j - 1]);
            }
          } else {
            assert r[i] == s[i - 1] && r[j] == s[j - 1];
          }
        }
      }
    }
  }

  /** Insertion sort. */
  function Sort<T(!new)>(le: (T, T) -> bool, s: seq<T>): (r: seq<T>)
    requires TotalPreorder(le)
    ensures multiset(r) == multiset(s)
    ensures SortedBy(le, r)
  {
    if s == [] then []
    else
      var tail := Sort(le, s[1..]);
      InsertSorted(le, s[0], tail);
      assert s == [s[0]] + s[1..];
      Insert(le, s[0], tail)
  }

  lemma SortKeepsLength<T(!new)>(le: (T, T) -> bool, s: seq<T>)
    requires TotalPreorder(le)
    ensures |Sort(le, s)| == |s|
  {
    assert |multiset(Sort(le, s))| == |multiset(s)|;
  }

  lemma SortKeepsMembers<T(!new)>(le: (T, T) -> bool, s: seq<T>, x: T)
    requires TotalPreorder(le)
    ensures x in Sort(le, s) <==> x in s
  {
    assert x in Sort(le, s) <==> x in multiset(Sort(le, s));
  }
}
