/** The collection home page: every pen newest first, the pen count with its
    "pen"/"pens" label, the total value of the priced pens (shown when above 0),
    and the empty-collection view when there are no pens. */
module HomePage {
  import opened Common
  import opened StringOrder
  import opened SqlTable
  import Stats

  function Price(p: Pen): int {
    if p.purchase_price.Some? then p.purchase_price.value else 0
  }

  predicate HasPrice(p: Pen) {
    p.purchase_price.Some?
  }

  /** `reduce((sum, p) => sum + (p.purchase_price ?? 0), acc)`, left to right. */
  function PriceSum(ps: seq<Pen>, acc: int): int {
    if ps == [] then acc else PriceSum(ps[1..], acc + Price(ps[0]))
  }

  /** The fold adds the same prices as the stats total, whatever it starts from. */
  lemma {:induction false} PriceSumIsTotal(ps: seq<Pen>, acc: int)
    ensures PriceSum(ps, acc) == acc + Stats.TotalValue(ps)
  {
    if ps != [] {
      PriceSumIsTotal(ps[1..], acc + Price(ps[0]));
    }
  }

  /** Dropping the unpriced pens leaves the total as it is. */
  lemma {:induction false} PricedKeepTotal(pens: seq<Pen>)
    ensures Stats.TotalValue(Filter(pens, HasPrice)) == Stats.TotalValue(pens)
  {
    if pens != [] {
      PricedKeepTotal(pens[1..]);
      if HasPrice(pens[0]) {
        assert Filter(pens, HasPrice) == [pens[0]] + Filter(pens[1..], HasPrice);
        assert ([pens[0]] + Filter(pens[1..], HasPrice))[1..] == Filter(pens[1..], HasPrice);
      }
    }
  }

  lemma {:induction false} TotalOfConcat(a: seq<Pen>, b: seq<Pen>)
    ensures Stats.TotalValue(a + b) == Stats.TotalValue(a) + Stats.TotalValue(b)
  {
    if a == [] {
      assert a + b == b;
    } else {
      var ab := a + b;
      assert ab[0] == a[0] && ab[1..] == a[1..] + b;
      assert Stats.TotalValue(ab) == Price(a[0]) + Stats.TotalValue(a[1..] + b);
      assert Stats.TotalValue(a) == Price(a[0]) + Stats.TotalValue(a[1..]);
      TotalOfConcat(a[1..], b);
    }
  }

  /** Taking one pen out of the list takes its price out of the total. */
  lemma TotalWithout(b: seq<Pen>, k: int)
    requires 0 <= k < |b|
    ensures Stats.TotalValue(b) == Price(b[k]) + Stats.TotalValue(b[..k] + b[k + 1..])
  {
    var tail := [b[k]] + b[k + 1..];
    assert b == b[..k] + tail;
    assert tail[0] == b[k] && tail[1..] == b[k + 1..];
    assert Stats.TotalValue(tail) == Price(b[k]) + Stats.TotalValue(b[k + 1..]);
    TotalOfConcat(b[..k], tail);
    TotalOfConcat(b[..k], b[k + 1..]);
  }

  lemma MultisetWithout(b: seq<Pen>, k: int)
    requires 0 <= k < |b|
    ensures multiset(b[..k] + b[k + 1..]) == multiset(b) - multiset{b[k]}
  {
    assert b == b[..k] + [b[k]] + b[k + 1..];
    assert multiset(b) == multiset(b[..k]) + multiset{b[k]} + multiset(b[k + 1..]);
  }

  /** The total does not depend on the order of the pens. */
  lemma {:induction false} TotalOfPermutation(a: seq<Pen>, b: seq<Pen>)
    requires multiset(a) == multiset(b)
    ensures Stats.TotalValue(a) == Stats.TotalValue(b)
  {
    if a == [] {
      assert |b| == |multiset(b)| == 0;
    } else {
      var x := a[0];
      assert a == [x] + a[1..];
      assert multiset(a[1..]) == multiset(a) - multiset{x};
      assert x in multiset(b);
      var k :| 0 <= k < |b| && b[k] == x;
      MultisetWithout(b, k);
      TotalOfPermutation(a[1..], b[..k] + b[k + 1..]);
      TotalWithout(b, k);
    }
  }

  /** `pens.filter(p => p.purchase_price != null).reduce(..., 0)` over the listed
      pens: the sum of the non-null prices of the collection. */
  function TotalValue(listed: seq<Pen>): (total: int)
    ensures total == Stats.TotalValue(listed)
  {
    PriceSumIsTotal(Filter(listed, HasPrice), 0);
    PricedKeepTotal(listed);
    PriceSum(Filter(listed, HasPrice), 0)
  }

  /** `pens.length === 1 ? "pen" : "pens"`. */
  function CountLabel(n: nat): (word: string)
    ensures word == "pen" <==> n == 1
    ensures word == "pen" || word == "pens"
  {
    if n == 1 then "pen" else "pens"
  }

  /** What the page shows. */
  datatype HomeView = HomeView(cards: seq<Pen>, countText: string, total: int, totalShown: bool,
                               emptyView: bool)

  /** The page over the rows of `pens` (the query sorts them newest first). */
  function Home(rows: seq<Pen>): (v: HomeView)
    ensures multiset(v.cards) == multiset(rows)
    ensures forall i, j :: 0 <= i < j < |v.cards| ==> LexLe(v.cards[j].created_at, v.cards[i].created_at)
    ensures v.total == Stats.TotalValue(rows)
    ensures (forall p :: p in rows ==> p.purchase_price.None?) ==> v.total == 0 && !v.totalShown
    ensures v.totalShown <==> v.total > 0
    ensures v.emptyView <==> rows == []
    ensures v.countText == NatToString(|rows|) + " " + CountLabel(|rows|)
  {
    var pens := NewestFirst(rows, (p: Pen) => p.created_at);
    assert |pens| == |multiset(pens)| == |multiset(rows)| == |rows|;
    TotalOfPermutation(pens, rows);
    var total := TotalValue(pens);
    HomeView(pens, NatToString(|pens|) + " " + CountLabel(|pens|), total, total > 0, |pens| == 0)
  }
}
