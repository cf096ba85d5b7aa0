/**
 * The single-item result list: all retailers' products in one list, the
 * lowest price among them, and the list sorted by price (ascending or
 * descending, unpriced products counting as infinitely expensive) with
 * ties broken by name.
 */
module ListProducts {
  import opened Wrappers
  import opened Strings
  import opened Catalog
  import opened Sorting

  /** The React key of a product card: retailer (or "unknown"), a colon,
      and the first non-empty of id, link and `name-price`. */
  function ProductKey(p: Product): string {
    p.retailer.GetOr("unknown") + ":" + KeyBase(p)
  }

  function KeyBase(p: Product): string {
    var id := IdOrEmpty(p);
    if id != "" then id else if p.link != "" then p.link else p.name + "-" + PriceText(p.price)
  }

  /** When retailer names carry no colon, two cards share a key only if
      they come from the same retailer and have the same key base; in
      particular two products of one retailer with ids have the same key
      exactly when their ids agree. */
  lemma ProductKeyParts(p: Product, q: Product)
    requires ':' !in p.retailer.GetOr("unknown") && ':' !in q.retailer.GetOr("unknown")
    ensures ProductKey(p) == ProductKey(q) <==>
              p.retailer.GetOr("unknown") == q.retailer.GetOr("unknown") && KeyBase(p) == KeyBase(q)
    ensures p.retailer.GetOr("unknown") == q.retailer.GetOr("unknown") && IdOrEmpty(p) != "" && IdOrEmpty(q) != ""
            ==> (ProductKey(p) == ProductKey(q) <==> IdOrEmpty(p) == IdOrEmpty(q))
  {
    if ProductKey(p) == ProductKey(q) {
      SeparatorSplits(p.retailer.GetOr("unknown"), KeyBase(p), q.retailer.GetOr("unknown"), KeyBase(q), ':');
    }
  }

  /** `flatMap(r => r.products)`: every retailer's products, retailer by
      retailer, in order. */
  function AllProducts(results: seq<RetailerResult>): (r: seq<Product>)
    ensures forall k, p :: 0 <= k < |results| && p in results[k].products ==> p in r
    ensures forall p :: p in r ==> exists k :: 0 <= k < |results| && p in results[k].products
  {
    if results == [] then []
    else
      var rest := AllProducts(results[1..]);
      assert forall k :: 0 < k < |results| ==> results[k] == results[1..][k - 1];
      results[0].products + rest
  }

  /** Flattening distributes over splitting the retailer list. */
  lemma {:induction false} AllProductsConcat(a: seq<RetailerResult>, b: seq<RetailerResult>)
    ensures AllProducts(a + b) == AllProducts(a) + AllProducts(b)
    decreases |a|
  {
    if a == [] {
      assert a + b == b;
    } else {
      assert (a + b)[1..] == a[1..] + b;
      AllProductsConcat(a[1..], b);
    }
  }

  /** One retailer contributes exactly its own products. */
  lemma AllProductsSingle(x: RetailerResult)
    ensures AllProducts([x]) == x.products
  {
    assert [x][1..] == [];
  }

  /** `best` is the lowest price of the list, or `None` when no product has one. */
  ghost predicate IsMinPrice(all: seq<Product>, best: Option<int>) {
    && (best.None? <==> forall i :: 0 <= i < |all| ==> all[i].price.None?)
    && (best.Some? ==> exists i :: 0 <= i < |all| && all[i].price == best)
    && (best.Some? ==> forall i :: 0 <= i < |all| && all[i].price.Some? ==> best.value <= all[i].price.value)
  }

  /** `bestPrice`: a running minimum over the priced products. */
  method BestPrice(all: seq<Product>) returns (best: Option<int>)
    ensures IsMinPrice(all, best)
  {
    best := None;
    for i := 0 to |all|
      invariant best.None? <==> forall j :: 0 <= j < i ==> all[j].price.None?
      invariant best.Some? ==> exists j :: 0 <= j < i && all[j].price == best
      invariant best.Some? ==> forall j :: 0 <= j < i && all[j].price.Some? ==> best.value <= all[j].price.value
    {
      var p := all[i];
      if p.price.Some? {
        if best.None? || p.price.value < best.value {
          best := p.price;
        }
      }
    }
  }

  /** The lowest price is unique. */
  lemma MinPriceUnique(all: seq<Product>, b1: Option<int>, b2: Option<int>)
    requires IsMinPrice(all, b1) && IsMinPrice(all, b2)
    ensures b1 == b2
  {
    if b1.Some? {
      var i :| 0 <= i < |all| && all[i].price == b1;
      var j :| 0 <= j < |all| && all[j].price == b2;
    }
  }

  /** The "best price" flag of a card. */
  predicate IsBestPrice(best: Option<int>, p: Product) {
    best.Some? && p.price == best
  }

  /** A card is flagged exactly when it is priced and no product is
      cheaper; every product at the lowest price is flagged. */
  lemma BestFlagIffCheapest(all: seq<Product>, best: Option<int>, k: int)
    requires IsMinPrice(all, best) && 0 <= k < |all|
    ensures IsBestPrice(best, all[k]) <==>
              all[k].price.Some? && forall i :: 0 <= i < |all| && all[i].price.Some? ==> all[k].price.value <= all[i].price.value
  {
    if best.Some? {
      var i :| 0 <= i < |all| && all[i].price == best;
    }
  }

  datatype SortOrder = Asc | Desc

  /** `cmp(a, b) <= 0` for the comparator of the sort: equal prices (both
      absent included) compare by name; otherwise by price in the chosen
      direction, an absent price counting as +infinity. */
  predicate ProductLe(order: SortOrder, a: Product, b: Product) {
    if a.price == b.price then StrLe(a.name, b.name)
    else if a.price.Some? && b.price.Some? then
      (if order == Asc then a.price.value <= b.price.value else b.price.value <= a.price.value)
    else if a.price.Some? then order == Asc
    else order == Desc
  }

  function LeOf(order: SortOrder): (Product, Product) -> bool {
    (a, b) => ProductLe(order, a, b)
  }

  lemma ProductLeTotal(order: SortOrder)
    ensures TotalOrder(LeOf(order))
  {
    forall a: Product, b: Product
      ensures ProductLe(order, a, b) || ProductLe(order, b, a)
    {
      StrLeTotal(a.name, b.name);
    }
  }

  lemma ProductLeTransitive(order: SortOrder)
    ensures Transitive(LeOf(order))
  {
    forall a: Product, b: Product, c: Product | ProductLe(order, a, b) && ProductLe(order, b, c)
      ensures ProductLe(order, a, c)
    {
      if a.price == b.price && b.price == c.price {
        StrLeTransitive(a.name, b.name, c.name);
      }
    }
  }

  /** The list the cards are rendered from. */
  function SortProducts(all: seq<Product>, order: SortOrder): (r: seq<Product>)
    ensures multiset(r) == multiset(all)
    ensures Sorted(r, LeOf(order))
  {
    ProductLeTotal(order);
    SortBy(all, LeOf(order))
  }

  lemma SortedProductsPairwise(all: seq<Product>, order: SortOrder)
    ensures var r := SortProducts(all, order);
            forall i, j :: 0 <= i < j < |r| ==> ProductLe(order, r[i], r[j])
  {
    ProductLeTransitive(order);
    SortedPairwise(SortProducts(all, order), LeOf(order));
  }

  /** Ascending: priced products first, by non-decreasing price, unpriced
      ones last; equal prices in name order. */
  lemma SortedAscending(all: seq<Product>)
    ensures var r := SortProducts(all, Asc);
            forall i, j :: 0 <= i < j < |r| ==>
              && (r[i].price.Some? && r[j].price.Some? ==> r[i].price.value <= r[j].price.value)
              && (r[i].price.None? ==> r[j].price.None?)
              && (r[i].price == r[j].price ==> StrLe(r[i].name, r[j].name))
  {
    SortedProductsPairwise(all, Asc);
  }

  /** Descending: unpriced products first, then by non-increasing price;
      equal prices in name order. */
  lemma SortedDescending(all: seq<Product>)
    ensures var r := SortProducts(all, Desc);
            forall i, j :: 0 <= i < j < |r| ==>
              && (r[i].price.Some? && r[j].price.Some? ==> r[i].price.value >= r[j].price.value)
              && (r[j].price.None? ==> r[i].price.None?)
              && (r[i].price == r[j].price ==> StrLe(r[i].name, r[j].name))
  {
    SortedProductsPairwise(all, Desc);
  }

  /** In ascending order the first card is flagged best whenever some
      product has a price. */
  lemma FirstAscendingIsBest(all: seq<Product>, best: Option<int>)
    requires IsMinPrice(all, best) && best.Some?
    ensures |SortProducts(all, Asc)| > 0 && IsBestPrice(best, SortProducts(all, Asc)[0])
  {
    var r := SortProducts(all, Asc);
    SortedAscending(all);
    var k :| 0 <= k < |all| && all[k].price == best;
    assert all[k] in multiset(r);
    var m :| 0 <= m < |r| && r[m] == all[k];
    if m > 0 {
      assert r[0].price.Some? && r[0].price.value <= best.value;
    }
    assert r[0] in multiset(all);
    var z :| 0 <= z < |all| && all[z] == r[0];
    assert best.value <= r[0].price.value;
  }
}
