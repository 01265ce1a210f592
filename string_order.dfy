/** The order in which text is sorted: SQLite's default BINARY collation and
    JavaScript's default `sort` both compare strings character by character, a proper
    prefix coming first. */
module StringOrder {
  import opened Common
  import opened Sorting

  /** `a` sorts no later than `b`. */
  predicate LexLe(a: string, b: string) {
    a == [] || (b != [] && (a[0] < b[0] || (a[0] == b[0] && LexLe(a[1..], b[1..]))))
  }

  predicate LexLt(a: string, b: string) {
    LexLe(a, b) && a != b
  }

  lemma {:induction false} LexLeReflexive(a: string)
    ensures LexLe(a, a)
  {
    if a != [] {
      LexLeReflexive(a[1..]);
    }
  }

  lemma {:induction false} LexLeTotal(a: string, b: string)
    ensures LexLe(a, b) || LexLe(b, a)
  {
    if a != [] && b != [] && a[0] == b[0] {
      LexLeTotal(a[1..], b[1..]);
    }
  }

  lemma {:induction false} LexLeTransitive(a: string, b: string, c: string)
    requires LexLe(a, b) && LexLe(b, c)
    ensures LexLe(a, c)
  {
    if a != [] && b != [] && c != [] && a[0] == b[0] && b[0] == c[0] {
      LexLeTransitive(a[1..], b[1..], c[1..]);
    }
  }

  lemma {:induction false} LexLeAntisymmetric(a: string, b: string)
    requires LexLe(a, b) && LexLe(b, a)
    ensures a == b
  {
    if a != [] && b != [] {
      LexLeAntisymmetric(a[1..], b[1..]);
      assert a == [a[0]] + a[1..] && b == [b[0]] + b[1..];
    }
  }

  lemma LexLeIsTotalPreorder()
    ensures TotalPreorder(LexLe)
  {
    forall a, b ensures LexLe(a, b) || LexLe(b, a) {
      LexLeTotal(a, b);
    }
    forall a, b, c | LexLe(a, b) && LexLe(b, c) ensures LexLe(a, c) {
      LexLeTransitive(a, b, c);
    }
  }

  /** Strictly ascending: sorted, and therefore without duplicates. */
  predicate StrictlyAscending(s: seq<string>) {
    forall i, j :: 0 <= i < j < |s| ==> LexLt(s[i], s[j])
  }

  lemma StrictlyAscendingHasNoDuplicates(s: seq<string>)
    requires StrictlyAscending(s)
    ensures NoDuplicates(s)
  {
  }

  /** Adds `x` to a strictly ascending list unless it is already there. */
  function InsertDistinct(x: string, s: seq<string>): (r: seq<string>)
    requires StrictlyAscending(s)
    ensures StrictlyAscending(r)
    ensures forall y :: y in r <==> y == x || y in s
  {
    if s == [] then [x]
    else if s[0] == x then s
    else if LexLe(s[0], x) then
      var rest := InsertDistinct(x, s[1..]);
      forall k | 0 <= k < |rest| ensures LexLt(s[0], rest[k]) {
        assert rest[k] in rest;
        if rest[k] != x {
          var j :| 0 <= j < |s[1..]| && s[1..][j] == rest[k];
          assert s[1 + j] == rest[k];
        }
      }
      [s[0]] + rest
    else
      LexLeTotal(s[0], x);
      forall k | 0 <= k < |s| ensures LexLt(x, s[k]) {
        if k > 0 {
          LexLeTransitive(x, s[0], s[k]);
        }
      }
      [x] + s
  }

  /** The distinct strings of `s` in ascending order (SQL `SELECT DISTINCT ... ORDER
      BY`, or JavaScript `Array.from(new Set(s)).sort()`). */
  function SortedDistinct(s: seq<string>): (r: seq<string>)
    ensures StrictlyAscending(r)
    ensures forall y :: y in r <==> y in s
  {
    if s == [] then [] else InsertDistinct(s[0], SortedDistinct(s[1..]))
  }

  /** A strictly ascending list is fixed by its members. */
  lemma {:induction false} StrictlyAscendingUnique(a: seq<string>, b: seq<string>)
    requires StrictlyAscending(a) && StrictlyAscending(b)
    requires forall x :: x in a <==> x in b
    ensures a == b
  {
    HeadIsMember(b);
    if a != [] {
      assert a[0] in a && a[0] in b;
      assert b[0] in b && b[0] in a;
      if a[0] != b[0] {
        assert LexLt(b[0], a[0]) && LexLt(a[0], b[0]);
        LexLeAntisymmetric(a[0], b[0]);
      }
      forall x ensures x in a[1..] <==> x in b[1..] {
        TailMembers(a, x);
        TailMembers(b, x);
      }
      StrictlyAscendingUnique(a[1..], b[1..]);
      assert a == [a[0]] + a[1..] && b == [b[0]] + b[1..];
    }
  }

  lemma HeadIsMember(s: seq<string>)
    ensures s == [] || s[0] in s
  {
  }

  lemma TailMembers(s: seq<string>, x: string)
    requires StrictlyAscending(s) && s != []
    ensures x in s[1..] <==> x in s && x != s[0]
  {
    if x in s[1..] {
      var k :| 0 <= k < |s[1..]| && s[1..][k] == x;
      assert s[k + 1] == x;
    }
    if x in s && x != s[0] {
      var k :| 0 <= k < |s| && s[k] == x;
      assert s[1..][k - 1] == x;
    }
  }
}
