/** The collection statistics: the aggregate queries of the stats page (run again,
    unchanged, by the stats route) restated over the rows of the tables, and what
    the page makes of them (bar lengths, the most-active and low-stock lists). The
    queries read whole tables; none of them is restricted to one owner. */
module Stats {
  import opened Common
  import opened Sorting
  import opened StringOrder

  // ---------------------------------------------------------------------------
  // Scalars

  /** `COALESCE(SUM(purchase_price), 0) ... WHERE purchase_price IS NOT NULL`, in
      cents. */
  function TotalValue(pens: seq<Pen>): (total: int)
    ensures (forall i :: 0 <= i < |pens| ==> pens[i].purchase_price.None?) ==> total == 0
    ensures (forall i :: 0 <= i < |pens| ==> pens[i].purchase_price.None? || pens[i].purchase_price.value >= 0)
            ==> total >= 0
  {
    if pens == [] then 0
    else (if pens[0].purchase_price.Some? then pens[0].purchase_price.value else 0) + TotalValue(pens[1..])
  }

  /** The number and the sum of the ratings above 0. */
  function RatedCount(pens: seq<Pen>): (n: nat)
    ensures n == 0 <==> forall i :: 0 <= i < |pens| ==> pens[i].rating <= 0
  {
    if pens == [] then 0
    else
      var n := (if pens[0].rating > 0 then 1 else 0) + RatedCount(pens[1..]);
      assert forall i :: 1 <= i < |pens| ==> pens[i] == pens[1..][i - 1];
      n
  }

  function RatedSum(pens: seq<Pen>): (sum: int)
    ensures sum >= RatedCount(pens)
  {
    if pens == [] then 0
    else (if pens[0].rating > 0 then pens[0].rating else 0) + RatedSum(pens[1..])
  }

  /** The mean of `n` values adding up to `sum`, each at least 1; 0 for no value. */
  function Mean(sum: int, n: nat): (avg: real)
    requires sum >= n
    ensures avg == 0.0 <==> n == 0
    ensures n > 0 ==> avg >= 1.0 && avg * n as real == sum as real
  {
    MeanBounds(sum, n);
    if n == 0 then 0.0 else sum as real / n as real
  }

  lemma MeanBounds(sum: int, n: nat)
    requires sum >= n
    ensures n > 0 ==> sum as real / n as real >= 1.0
    ensures n > 0 ==> (sum as real / n as real) * n as real == sum as real
  {
    if n > 0 {
      var s, m := sum as real, n as real;
      assert s >= m > 0.0;
      assert s / m >= 1.0;
    }
  }

  /** `COALESCE(AVG(rating), 0) ... WHERE rating > 0`: the mean of the ratings above
      0, and 0 when no pen is rated. */
  function AvgRating(pens: seq<Pen>): (avg: real)
    ensures avg == 0.0 <==> forall i :: 0 <= i < |pens| ==> pens[i].rating <= 0
  {
    Mean(RatedSum(pens), RatedCount(pens))
  }

  /** `COUNT(*) FROM wishlist WHERE acquired = 0`. */
  function WishlistCount(items: seq<WishlistItem>): (n: nat)
    ensures n <= |items|
    ensures n == 0 <==> forall x :: x in items ==> x.acquired != 0
  {
    CountWhere(items, Wanted)
  }

  predicate Wanted(x: WishlistItem) {
    x.acquired == 0
  }

  /** The count is the number of items the page lists as not yet acquired. */
  lemma WishlistCountIsWanted(items: seq<WishlistItem>)
    ensures WishlistCount(items) == |Filter(items, Wanted)|
  {
    CountWhereIsFilter(items, Wanted);
  }

  /** Adding an item that is not acquired adds one; an acquired one adds nothing. */
  lemma WishlistCountAppend(items: seq<WishlistItem>, x: WishlistItem)
    ensures WishlistCount(items + [x]) == WishlistCount(items) + (if x.acquired == 0 then 1 else 0)
  {
    CountWhereAppend(items, x, Wanted);
  }

  lemma {:induction false} CountWhereIsFilter<T(!new)>(s: seq<T>, p: T -> bool)
    ensures CountWhere(s, p) == |Filter(s, p)|
  {
    if s != [] {
      CountWhereIsFilter(s[1..], p);
    }
  }

  lemma {:induction false} CountWhereAppend<T(!new)>(s: seq<T>, x: T, p: T -> bool)
    ensures CountWhere(s + [x], p) == CountWhere(s, p) + (if p(x) then 1 else 0)
  {
    if s == [] {
      assert [] + [x] == [x];
    } else {
      assert (s + [x])[1..] == s[1..] + [x];
      CountWhereAppend(s[1..], x, p);
    }
  }

  // ---------------------------------------------------------------------------
  // Group and count

  /** A row of `SELECT key, COUNT(*) as count ... GROUP BY key`. */
  datatype Group = Group(key: string, count: nat)

  /** One group per distinct key, with the number of rows holding it. */
  function GroupsOf(keys: seq<string>): (r: seq<Group>)
    ensures forall g :: g in r <==> g.key in keys && g.count == Count(keys, g.key)
    ensures NoDuplicates(r)
  {
    var ks := SortedDistinct(keys);
    StrictlyAscendingHasNoDuplicates(ks);
    var r := seq(|ks|, i requires 0 <= i < |ks| => Group(ks[i], Count(keys, ks[i])));
    forall g: Group | g.key in keys && g.count == Count(keys, g.key) ensures g in r {
      var i :| 0 <= i < |ks| && ks[i] == g.key;
      assert r[i] == g;
    }
    r
  }

  predicate MoreRows(a: Group, b: Group) {
    a.count >= b.count
  }

  lemma MoreRowsIsTotalPreorder()
    ensures TotalPreorder(MoreRows)
  {
  }

  predicate NonEmpty(k: string) {
    k != ""
  }

  lemma {:induction false} CountOfFiltered(keys: seq<string>, k: string)
    requires k != ""
    ensures Count(Filter(keys, NonEmpty), k) == Count(keys, k)
  {
    if keys != [] {
      CountOfFiltered(keys[1..], k);
    }
  }

  /** `WHERE key != '' GROUP BY key ORDER BY count DESC`: every non-empty key once,
      with its number of rows, most rows first. */
  function AllGroups(keys: seq<string>): (all: seq<Group>)
    ensures SortedBy(MoreRows, all)
    ensures NoDuplicates(all)
    ensures forall g :: g in all <==> g.key != "" && g.key in keys && g.count == Count(keys, g.key)
  {
    MoreRowsIsTotalPreorder();
    var groups := GroupsOf(Filter(keys, NonEmpty));
    var all := Sort(MoreRows, groups);
    PermutationNoDuplicates(groups, all);
    forall g: Group ensures g in all <==> g.key != "" && g.key in keys && g.count == Count(keys, g.key) {
      SortKeepsMembers(MoreRows, groups, g);
      if g.key != "" {
        CountOfFiltered(keys, g.key);
      }
    }
    all
  }

  /** The same with `LIMIT n` when a limit is given. */
  function Ranked(keys: seq<string>, limit: Option<nat>): seq<Group> {
    var all := AllGroups(keys);
    if limit.Some? then Take(all, limit.value) else all
  }

  /** Every ranked group is a non-empty key with its exact number of rows, no key
      is listed twice, the counts do not increase, and the limit is kept. */
  lemma RankedGroups(keys: seq<string>, limit: Option<nat>)
    ensures var r := Ranked(keys, limit);
            && (forall i :: 0 <= i < |r| ==> r[i].key != "" && r[i].count == Count(keys, r[i].key) >= 1)
            && (forall i, j :: 0 <= i < j < |r| ==> r[i].key != r[j].key && r[i].count >= r[j].count)
            && (limit.Some? ==> |r| <= limit.value)
  {
    var all := AllGroups(keys);
    var r := Ranked(keys, limit);
    forall i | 0 <= i < |r| ensures r[i].key != "" && r[i].count == Count(keys, r[i].key) >= 1 {
      assert r[i] == all[i] && all[i] in all;
    }
    forall i, j | 0 <= i < j < |r| ensures r[i].key != r[j].key && r[i].count >= r[j].count {
      assert r[i] == all[i] && r[j] == all[j];
      assert all[i] in all && all[j] in all;
    }
  }

  /** The ranking is a prefix of all the groups, cut short only by a full limit. */
  lemma RankedIsPrefix(keys: seq<string>, limit: Option<nat>)
    ensures var all := AllGroups(keys);
            var r := Ranked(keys, limit);
            && r == all[..|r|]
            && (|r| < |all| ==> limit.Some? && |r| == limit.value)
  {
  }

  /** In a list sorted by count, every group before position `j` counts at least as
      many rows as the group at `j`. */
  lemma PrefixDominates(all: seq<Group>, n: nat, j: int)
    requires SortedBy(MoreRows, all) && n <= j < |all|
    ensures forall g :: g in all[..n] ==> g.count >= all[j].count
  {
    forall g | g in all[..n] ensures g.count >= all[j].count {
      var i :| 0 <= i < n && all[..n][i] == g;
      assert MoreRows(all[i], all[j]);
    }
  }

  /** A key that is left out of the ranking was cut by the limit, and ranks no
      higher than every listed group. */
  lemma RankedIsTop(keys: seq<string>, limit: Option<nat>, k: string)
    requires k != "" && k in keys
    requires forall g :: g in Ranked(keys, limit) ==> g.key != k
    ensures limit.Some? && |Ranked(keys, limit)| == limit.value
    ensures forall g :: g in Ranked(keys, limit) ==> g.count >= Count(keys, k)
  {
    var all := AllGroups(keys);
    var r := Ranked(keys, limit);
    RankedIsPrefix(keys, limit);
    var missing := Group(k, Count(keys, k));
    assert missing in all;
    var j :| 0 <= j < |all| && all[j] == missing;
    forall i | 0 <= i < |r| ensures all[i] != missing {
      assert r[i] in r;
    }
    PrefixDominates(all, |r|, j);
  }

  /** `byBrand`, `byNibSize` and `mostUsedInks`. */
  function Brands(pens: seq<Pen>): (r: seq<string>)
    ensures |r| == |pens| && forall i :: 0 <= i < |pens| ==> r[i] == pens[i].brand
  {
    seq(|pens|, i requires 0 <= i < |pens| => pens[i].brand)
  }

  function NibSizes(pens: seq<Pen>): (r: seq<string>)
    ensures |r| == |pens| && forall i :: 0 <= i < |pens| ==> r[i] == pens[i].nib_size
  {
    seq(|pens|, i requires 0 <= i < |pens| => pens[i].nib_size)
  }

  function InkNames(history: seq<InkEntry>): (r: seq<string>)
    ensures |r| == |history| && forall i :: 0 <= i < |history| ==> r[i] == history[i].ink_name
  {
    seq(|history|, i requires 0 <= i < |history| => history[i].ink_name)
  }

  function ByBrand(pens: seq<Pen>): seq<Group> {
    Ranked(Brands(pens), Some(10))
  }

  function ByNibSize(pens: seq<Pen>): seq<Group> {
    Ranked(NibSizes(pens), None)
  }

  function MostUsedInks(history: seq<InkEntry>): seq<Group> {
    Ranked(InkNames(history), Some(10))
  }

  /** Without a limit every non-empty key is listed. */
  lemma EveryNibSizeListed(pens: seq<Pen>, size: string)
    requires size != "" && exists i :: 0 <= i < |pens| && pens[i].nib_size == size
    ensures exists g :: g in ByNibSize(pens) && g.key == size
  {
    var i :| 0 <= i < |pens| && pens[i].nib_size == size;
    assert NibSizes(pens)[i] == size;
    if forall g :: g in ByNibSize(pens) ==> g.key != size {
      RankedIsTop(NibSizes(pens), None, size);
    }
  }

  // ---------------------------------------------------------------------------
  // Most active pens

  /** A row of the most-active query: a pen and its number of ink changes. */
  datatype ActivePen = ActivePen(brand: string, model: string, id: int, ink_changes: nat)

  /** `COUNT(ih.id)` of the LEFT JOIN: 0 for a pen without history. */
  function Activity(p: Pen, history: seq<InkEntry>): (a: ActivePen)
    ensures a.id == p.id && a.brand == p.brand && a.model == p.model
    ensures a.ink_changes == 0 <==> forall e :: e in history ==> e.pen_id != p.id
    ensures a.ink_changes == |Filter(history, (e: InkEntry) => e.pen_id == p.id)|
  {
    CountWhereIsFilter(history, (e: InkEntry) => e.pen_id == p.id);
    ActivePen(p.brand, p.model, p.id, CountWhere(history, (e: InkEntry) => e.pen_id == p.id))
  }

  function ActivityRows(pens: seq<Pen>, history: seq<InkEntry>): (r: seq<ActivePen>)
    ensures |r| == |pens| && forall i :: 0 <= i < |pens| ==> r[i] == Activity(pens[i], history)
  {
    seq(|pens|, i requires 0 <= i < |pens| => Activity(pens[i], history))
  }

  predicate MoreActive(a: ActivePen, b: ActivePen) {
    a.ink_changes >= b.ink_changes
  }

  lemma MoreActiveIsTotalPreorder()
    ensures TotalPreorder(MoreActive)
  {
  }

  const MostActiveLimit: nat := 5

  /** `... GROUP BY p.id ORDER BY ink_changes DESC LIMIT 5`. */
  function MostActivePens(pens: seq<Pen>, history: seq<InkEntry>): (r: seq<ActivePen>)
    ensures |r| <= MostActiveLimit
    ensures SortedBy(MoreActive, r)
    ensures forall a :: a in r ==> exists i :: 0 <= i < |pens| && a == Activity(pens[i], history)
  {
    MoreActiveIsTotalPreorder();
    var rows := ActivityRows(pens, history);
    var all := Sort(MoreActive, rows);
    var r := Take(all, MostActiveLimit);
    forall a | a in r ensures exists i :: 0 <= i < |pens| && a == Activity(pens[i], history) {
      SortKeepsMembers(MoreActive, rows, a);
    }
    r
  }

  /** With at most five pens every pen is listed, those without ink history too. */
  lemma FewPensAllListed(pens: seq<Pen>, history: seq<InkEntry>, p: Pen)
    requires |pens| <= MostActiveLimit && p in pens
    ensures Activity(p, history) in MostActivePens(pens, history)
  {
    MoreActiveIsTotalPreorder();
    var rows := ActivityRows(pens, history);
    SortKeepsLength(MoreActive, rows);
    var i :| 0 <= i < |pens| && pens[i] == p;
    assert rows[i] == Activity(p, history);
    SortKeepsMembers(MoreActive, rows, Activity(p, history));
  }

  /** Five rows come back, or one per pen when there are fewer pens. */
  lemma MostActiveCount(pens: seq<Pen>, history: seq<InkEntry>)
    ensures |MostActivePens(pens, history)|
            == if |pens| < MostActiveLimit then |pens| else MostActiveLimit
  {
    MoreActiveIsTotalPreorder();
    SortKeepsLength(MoreActive, ActivityRows(pens, history));
  }

  /** A pen whose row is left out of the list was cut by the limit, and has no
      more ink changes than any listed pen. */
  lemma MostActiveIsTop(pens: seq<Pen>, history: seq<InkEntry>, i: int)
    requires 0 <= i < |pens|
    requires Activity(pens[i], history) !in MostActivePens(pens, history)
    ensures |MostActivePens(pens, history)| == MostActiveLimit
    ensures forall a :: a in MostActivePens(pens, history) ==>
              a.ink_changes >= Activity(pens[i], history).ink_changes
  {
    MoreActiveIsTotalPreorder();
    var rows := ActivityRows(pens, history);
    var all := Sort(MoreActive, rows);
    var r := MostActivePens(pens, history);
    assert r == Take(all, MostActiveLimit);
    SortKeepsLength(MoreActive, rows);
    SortKeepsMembers(MoreActive, rows, rows[i]);
    var j :| 0 <= j < |all| && all[j] == rows[i];
    forall k | 0 <= k < |r| ensures all[k] != rows[i] {
      assert r[k] in r;
    }
    forall a | a in r ensures a.ink_changes >= rows[i].ink_changes {
      var k :| 0 <= k < |r| && r[k] == a;
      assert MoreActive(all[k], all[j]);
    }
  }

  /** When no two pens share an id, no pen is listed twice. */
  lemma MostActiveDistinct(pens: seq<Pen>, history: seq<InkEntry>)
    requires forall i, j :: 0 <= i < j < |pens| ==> pens[i].id != pens[j].id
    ensures var r := MostActivePens(pens, history);
            forall i, j :: 0 <= i < j < |r| ==> r[i].id != r[j].id
  {
    MoreActiveIsTotalPreorder();
    var rows := ActivityRows(pens, history);
    var all := Sort(MoreActive, rows);
    var r := MostActivePens(pens, history);
    assert r == Take(all, MostActiveLimit);
    assert NoDuplicates(rows);
    PermutationNoDuplicates(rows, all);
    forall i, j | 0 <= i < j < |r| ensures r[i].id != r[j].id {
      SortKeepsMembers(MoreActive, rows, all[i]);
      SortKeepsMembers(MoreActive, rows, all[j]);
      DistinctRowsDistinctIds(pens, history, all[i], all[j]);
    }
  }

  lemma DistinctRowsDistinctIds(pens: seq<Pen>, history: seq<InkEntry>, a: ActivePen, b: ActivePen)
    requires forall i, j :: 0 <= i < j < |pens| ==> pens[i].id != pens[j].id
    requires a in ActivityRows(pens, history) && b in ActivityRows(pens, history) && a != b
    ensures a.id != b.id
  {
    var rows := ActivityRows(pens, history);
    var x :| 0 <= x < |rows| && rows[x] == a;
    var y :| 0 <= y < |rows| && rows[y] == b;
    assert a.id == pens[x].id && b.id == pens[y].id;
  }

  /** The list on the page: only pens with at least one ink change. */
  function ShownActivePens(r: seq<ActivePen>): (shown: seq<ActivePen>)
    ensures forall a :: a in shown <==> a in r && a.ink_changes > 0
    ensures IsSubsequence(shown, r)
  {
    Filter(r, (a: ActivePen) => a.ink_changes > 0)
  }

  /** The section is on display when the top row has an ink change. */
  predicate ActiveSectionShown(r: seq<ActivePen>) {
    |r| > 0 && r[0].ink_changes > 0
  }

  /** The top row of the most-active list has at least as many ink changes as any
      pen. */
  lemma TopRowIsBusiest(pens: seq<Pen>, history: seq<InkEntry>, i: int)
    requires 0 <= i < |pens|
    ensures |MostActivePens(pens, history)| > 0
    ensures MostActivePens(pens, history)[0].ink_changes >= Activity(pens[i], history).ink_changes
  {
    MoreActiveIsTotalPreorder();
    var rows := ActivityRows(pens, history);
    var all := Sort(MoreActive, rows);
    SortKeepsLength(MoreActive, rows);
    SortKeepsMembers(MoreActive, rows, rows[i]);
    var j :| 0 <= j < |all| && all[j] == rows[i];
    assert j == 0 || MoreActive(all[0], all[j]);
    assert MostActivePens(pens, history)[0] == all[0];
  }

  /** The section is on display exactly when some pen has ink history. */
  lemma ActiveSectionShownIff(pens: seq<Pen>, history: seq<InkEntry>)
    ensures ActiveSectionShown(MostActivePens(pens, history))
            <==> exists e :: e in history && exists i :: 0 <= i < |pens| && e.pen_id == pens[i].id
  {
    var r := MostActivePens(pens, history);
    if e :| e in history && exists i :: 0 <= i < |pens| && e.pen_id == pens[i].id {
      var i :| 0 <= i < |pens| && e.pen_id == pens[i].id;
      assert Activity(pens[i], history).ink_changes > 0;
      TopRowIsBusiest(pens, history, i);
    }
    if ActiveSectionShown(r) {
      assert r[0] in r;
      var i :| 0 <= i < |pens| && r[0] == Activity(pens[i], history);
      var e :| e in history && e.pen_id == pens[i].id;
    }
  }

  // ---------------------------------------------------------------------------
  // Low stock

  const LowStockLimit: int := 25
  const CriticalLimit: int := 10

  predicate LessRemaining(a: InkBottle, b: InkBottle) {
    a.remaining_pct <= b.remaining_pct
  }

  lemma LessRemainingIsTotalPreorder()
    ensures TotalPreorder(LessRemaining)
  {
  }

  predicate IsLow(b: InkBottle) {
    b.remaining_pct <= LowStockLimit
  }

  /** `WHERE remaining_pct <= 25 ORDER BY remaining_pct ASC`: exactly the low
      bottles, each as often as in the table, least remaining first. */
  function LowStockInks(bottles: seq<InkBottle>): (r: seq<InkBottle>)
    ensures multiset(r) == multiset(Filter(bottles, IsLow))
    ensures forall b :: b in r <==> b in bottles && b.remaining_pct <= LowStockLimit
    ensures SortedBy(LessRemaining, r)
  {
    LessRemainingIsTotalPreorder();
    var low := Filter(bottles, IsLow);
    var r := Sort(LessRemaining, low);
    forall b: InkBottle ensures b in r <==> b in low {
      SortKeepsMembers(LessRemaining, low, b);
    }
    r
  }

  /** A low bottle is shown in red at 10% or less. */
  predicate ShownRed(b: InkBottle) {
    b.remaining_pct <= CriticalLimit
  }

  /** The red bottles come first in the low-stock list. */
  lemma RedComeFirst(bottles: seq<InkBottle>)
    ensures var r := LowStockInks(bottles);
            forall i, j :: 0 <= i < j < |r| && ShownRed(r[j]) ==> ShownRed(r[i])
  {
  }

  // ---------------------------------------------------------------------------
  // Bars

  /** `rows[0]?.count || 1`: the first count, or 1 when there is no row or the
      first count is 0. */
  function BarMax(r: seq<Group>): (m: nat)
    ensures m >= 1
    ensures r != [] && r[0].count > 0 ==> m == r[0].count
  {
    if r != [] && r[0].count != 0 then r[0].count else 1
  }

  /** `(count / max) * 100`, in percent. */
  function BarWidth(count: nat, max: nat): real
    requires max >= 1
  {
    count as real / max as real * 100.0
  }

  /** Every bar of a ranking fits: its width lies between 0 and 100 percent, and
      the first bar is full. */
  lemma BarsFit(keys: seq<string>, limit: Option<nat>)
    ensures var r := Ranked(keys, limit);
            && (forall i :: 0 <= i < |r| ==> 0.0 < BarWidth(r[i].count, BarMax(r)) <= 100.0)
            && (r != [] ==> BarWidth(r[0].count, BarMax(r)) == 100.0)
  {
    RankedGroups(keys, limit);
    var r := Ranked(keys, limit);
    forall i | 0 <= i < |r| ensures 0.0 < BarWidth(r[i].count, BarMax(r)) <= 100.0 {
      if i > 0 {
        assert r[0].count >= r[i].count;
      }
      FractionOfMax(r[i].count as real, BarMax(r) as real);
    }
    if r != [] {
      FractionOfMax(r[0].count as real, r[0].count as real);
    }
  }

  lemma FractionOfMax(count: real, max: real)
    requires 0.0 < count <= max
    ensures 0.0 < count / max * 100.0 <= 100.0
    ensures count == max ==> count / max * 100.0 == 100.0
  {
    assert count / max <= 1.0;
  }
}
