/** `GET /api/stats`: the aggregate queries of the stats page run over whole
    tables (no owner filter) and returned as one JSON object of ten fields, or a
    500 reply when any query fails. */
module StatsRoute {
  import opened Common
  import opened Sorting
  import opened Stats

  /** The tables the queries read. */
  datatype Tables = Tables(pens: seq<Pen>, history: seq<InkEntry>, bottles: seq<InkBottle>,
                           wishlist: seq<WishlistItem>)

  /** The response object, field for field. */
  datatype StatsBody = StatsBody(
    totalPens: nat, totalValue: int, avgRating: real, totalInkBottles: nat, wishlistCount: nat,
    byBrand: seq<Group>, byNibSize: seq<Group>, mostUsedInks: seq<Group>,
    mostActivePens: seq<ActivePen>, lowStockInks: seq<InkBottle>)

  datatype Reply = StatsOk(body: StatsBody) | StatsFailed(status: int, error: string)

  const FetchStatsError := "Failed to fetch stats"

  /** The ten aggregates of one set of tables. */
  function Aggregate(t: Tables): (b: StatsBody)
    ensures b.totalPens == |t.pens| && b.totalInkBottles == |t.bottles|
    ensures b.wishlistCount <= |t.wishlist|
    ensures b.avgRating == 0.0 <==> forall i :: 0 <= i < |t.pens| ==> t.pens[i].rating <= 0
    ensures |b.byBrand| <= 10 && |b.mostUsedInks| <= 10 && |b.mostActivePens| <= MostActiveLimit
    ensures forall x :: x in b.lowStockInks <==> x in t.bottles && x.remaining_pct <= LowStockLimit
    ensures SortedBy(LessRemaining, b.lowStockInks)
    ensures b.totalValue == TotalValue(t.pens) && b.avgRating == AvgRating(t.pens)
    ensures b.wishlistCount == WishlistCount(t.wishlist)
    ensures b.byBrand == ByBrand(t.pens) && b.byNibSize == ByNibSize(t.pens)
    ensures b.mostUsedInks == MostUsedInks(t.history)
    ensures b.mostActivePens == MostActivePens(t.pens, t.history)
    ensures b.lowStockInks == LowStockInks(t.bottles)
  {
    RankedGroups(Brands(t.pens), Some(10));
    RankedGroups(InkNames(t.history), Some(10));
    StatsBody(|t.pens|, TotalValue(t.pens), AvgRating(t.pens), |t.bottles|, WishlistCount(t.wishlist),
              ByBrand(t.pens), ByNibSize(t.pens), MostUsedInks(t.history),
              MostActivePens(t.pens, t.history), LowStockInks(t.bottles))
  }

  /** `None` stands for a database that throws on some query. */
  function Get(db: Option<Tables>): (r: Reply)
    ensures db.None? <==> r.StatsFailed?
    ensures r.StatsFailed? ==> r.status == 500 && r.error == FetchStatsError
    ensures r.StatsOk? ==> r.body.totalPens == |db.value.pens|
    ensures r.StatsOk? ==> (r.body.avgRating == 0.0 <==>
                              forall i :: 0 <= i < |db.value.pens| ==> db.value.pens[i].rating <= 0)
    ensures r.StatsOk? ==> forall x :: x in r.body.lowStockInks ==> x.remaining_pct <= LowStockLimit
  {
    match db
    case None => StatsFailed(500, FetchStatsError)
    case Some(t) => StatsOk(Aggregate(t))
  }

  /** The same pens with new owners. */
  function Reassigned(pens: seq<Pen>, owners: seq<Option<string>>): (moved: seq<Pen>)
    requires |owners| == |pens|
    ensures |moved| == |pens|
    ensures forall i :: 0 <= i < |pens| ==> moved[i] == pens[i].(user_id := owners[i])
  {
    seq(|pens|, i requires 0 <= i < |pens| => pens[i].(user_id := owners[i]))
  }

  /** The totals ignore who owns a pen: two collections that differ only in the
      owners of their pens get the same statistics. */
  lemma {:induction false} OwnerDoesNotMatter(pens: seq<Pen>, owners: seq<Option<string>>, t: Tables)
    requires |owners| == |pens| && t.pens == pens
    ensures var moved := t.(pens := Reassigned(pens, owners));
            Aggregate(moved).totalValue == Aggregate(t).totalValue
            && Aggregate(moved).avgRating == Aggregate(t).avgRating
            && Aggregate(moved).byBrand == Aggregate(t).byBrand
  {
    var moved := Reassigned(pens, owners);
    SameValues(pens, moved);
    assert Brands(moved) == Brands(pens);
  }

  lemma {:induction false} SameValues(a: seq<Pen>, b: seq<Pen>)
    requires |a| == |b|
    requires forall i :: 0 <= i < |a| ==> a[i].purchase_price == b[i].purchase_price && a[i].rating == b[i].rating
    ensures TotalValue(a) == TotalValue(b) && RatedSum(a) == RatedSum(b) && RatedCount(a) == RatedCount(b)
  {
    if a != [] {
      SameValues(a[1..], b[1..]);
    }
  }
}
