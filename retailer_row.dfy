/**
 * One retailer's row in the shopping-list view: the products of its
 * selection, how many of them are already in the cart, and the one action
 * that either adds the whole list to the cart or, when every product is
 * already there, takes them all out.
 */
module RetailerRow {
  import opened Wrappers
  import opened Catalog
  import opened CartStore
  import opened ShoppingUtils
  import opened SelectionFacts

  /** `selection.items.map(x => x.product)`. */
  function Products(sel: RetailerSelection): (ps: seq<Product>)
    ensures |ps| == |sel.items| && forall i :: 0 <= i < |ps| ==> ps[i] == sel.items[i].product
  {
    seq(|sel.items|, i requires 0 <= i < |sel.items| => sel.items[i].product)
  }

  predicate CanAdd(products: seq<Product>) {
    |products| > 0
  }

  /** `cart[String(p.id)]?.qty` is truthy. */
  predicate InCart(cart: CartState, p: Product) {
    GetQty(cart, IdOrUndefined(p)) != 0
  }

  /** The number of products whose cart entry has a non-zero quantity. */
  function AlreadyInCartCount(cart: CartState, products: seq<Product>): (n: int)
    ensures 0 <= n <= |products|
    ensures n == |products| <==> forall i :: 0 <= i < |products| ==> InCart(cart, products[i])
  {
    if products == [] then 0
    else
      var last := products[|products| - 1];
      var pre := products[..|products| - 1];
      AlreadyInCartCount(cart, pre) + (if InCart(cart, last) then 1 else 0)
  }

  predicate AllInCart(cart: CartState, products: seq<Product>) {
    CanAdd(products) && AlreadyInCartCount(cart, products) == |products|
  }

  /** `allInCart` holds exactly when there is a product and every product
      is in the cart. */
  lemma AllInCartMeansEvery(cart: CartState, products: seq<Product>)
    ensures AllInCart(cart, products) <==>
              |products| > 0 && forall i :: 0 <= i < |products| ==> InCart(cart, products[i])
  {
  }

  /** The cart keys of the products, `String(p.id)` each, in order. */
  function Ids(products: seq<Product>): (ids: seq<string>)
    ensures |ids| == |products| && forall i :: 0 <= i < |products| ==> ids[i] == IdOrUndefined(products[i])
  {
    if products == [] then []
    else
      var n := |products| - 1;
      Ids(products[..n]) + [IdOrUndefined(products[n])]
  }

  /** The cart after `removeItem(String(p.id))` for each product in turn:
      exactly the products' keys are gone, every other entry is kept. */
  function RemovedAll(c: CartState, products: seq<Product>): (r: CartState)
    ensures forall k :: k in r <==> k in c && k !in Ids(products)
    ensures forall k :: k in r ==> r[k] == c[k]
    ensures ValidCart(c) ==> ValidCart(r)
  {
    if products == [] then c
    else
      var n := |products| - 1;
      Removed(RemovedAll(c, products[..n]), IdOrUndefined(products[n]))
  }

  /** The cart after `addOne(p)` for each product in turn. */
  function AddedAll(c: CartState, products: seq<Product>): CartState {
    if products == [] then c
    else
      var n := |products| - 1;
      AddedOne(AddedAll(c, products[..n]), products[n])
  }

  /** Adding the list keeps the cart valid, puts every product's key in it
      and leaves every other entry as it was. */
  lemma {:induction false} AddedAllFacts(c: CartState, products: seq<Product>)
    requires ValidCart(c)
    ensures ValidCart(AddedAll(c, products))
    ensures forall k :: k in Ids(products) ==> k in AddedAll(c, products)
    ensures forall k :: k !in Ids(products) ==>
              (k in AddedAll(c, products) <==> k in c) && (k in c ==> AddedAll(c, products)[k] == c[k])
    decreases |products|
  {
    if products != [] {
      var n := |products| - 1;
      AddedAllFacts(c, products[..n]);
    }
  }

  lemma RemovedAllStep(c: CartState, products: seq<Product>, i: int)
    requires 0 <= i < |products|
    ensures RemovedAll(c, products[..i + 1]) == Removed(RemovedAll(c, products[..i]), IdOrUndefined(products[i]))
  {
    assert products[..i + 1][..i] == products[..i];
  }

  lemma AddedAllStep(c: CartState, products: seq<Product>, i: int)
    requires 0 <= i < |products|
    ensures AddedAll(c, products[..i + 1]) == AddedOne(AddedAll(c, products[..i]), products[i])
  {
    assert products[..i + 1][..i] == products[..i];
  }

  /** `products.forEach(p => removeItem(String(p.id)))`. */
  method RemoveEach(cart: Cart, products: seq<Product>)
    modifies cart
    ensures cart.items == RemovedAll(old(cart.items), products)
  {
    ghost var start := cart.items;
    for i := 0 to |products|
      invariant cart.items == RemovedAll(start, products[..i])
    {
      cart.RemoveItem(IdOrUndefined(products[i]));
      RemovedAllStep(start, products, i);
    }
    assert products[..|products|] == products;
  }

  /** `products.forEach(p => addOne(p))`. */
  method AddEach(cart: Cart, products: seq<Product>)
    modifies cart
    ensures cart.items == AddedAll(old(cart.items), products)
  {
    ghost var start := cart.items;
    for i := 0 to |products|
      invariant cart.items == AddedAll(start, products[..i])
    {
      cart.AddOne(products[i]);
      AddedAllStep(start, products, i);
    }
    assert products[..|products|] == products;
  }

  /** The row's action on the cart store: nothing without products; when
      every product is already in the cart, each one is removed; otherwise
      one unit of each is added. Either way a valid cart stays valid. */
  method RunAction(cart: Cart, products: seq<Product>)
    modifies cart
    ensures !CanAdd(products) ==> cart.items == old(cart.items)
    ensures AllInCart(old(cart.items), products) ==> cart.items == RemovedAll(old(cart.items), products)
    ensures CanAdd(products) && !AllInCart(old(cart.items), products) ==> cart.items == AddedAll(old(cart.items), products)
    ensures old(cart.Valid()) ==> cart.Valid()
  {
    if !CanAdd(products) {
      return;
    }
    ghost var start := cart.items;
    if AllInCart(cart.items, products) {
      RemoveEach(cart, products);
    } else {
      AddEach(cart, products);
      if ValidCart(start) {
        AddedAllFacts(start, products);
      }
    }
  }

  /** After clearing a list that was all in the cart, none of its products
      is left there, and nothing else changed. */
  lemma ClearedListLeavesNone(c: CartState, products: seq<Product>)
    requires AllInCart(c, products)
    ensures forall i :: 0 <= i < |products| ==> !InCart(RemovedAll(c, products), products[i])
    ensures forall k :: k in c && k !in Ids(products) ==> k in RemovedAll(c, products) && RemovedAll(c, products)[k] == c[k]
  {
    var r := RemovedAll(c, products);
    forall i | 0 <= i < |products|
      ensures !InCart(r, products[i])
    {
      assert Ids(products)[i] == IdOrUndefined(products[i]);
    }
  }

  /** After adding a list to a valid cart, the whole list is in the cart,
      so the row now offers to clear it. */
  lemma AddedListIsAllInCart(c: CartState, products: seq<Product>)
    requires ValidCart(c) && CanAdd(products)
    ensures AllInCart(AddedAll(c, products), products)
  {
    AddedAllFacts(c, products);
    var r := AddedAll(c, products);
    forall i | 0 <= i < |products|
      ensures InCart(r, products[i])
    {
      assert Ids(products)[i] == IdOrUndefined(products[i]);
    }
  }

  /** The "best price" badge: the row is the best retailer and its
      selection has an item. */
  predicate ShowBestBadge(isBest: bool, sel: RetailerSelection) {
    isBest && |sel.items| > 0
  }

  /** A non-empty selection comes from a query with a candidate at the
      retailer. */
  lemma SelectedHasCandidate(data: ListResponse, r: string, ov: OverridesMap)
    requires |Selection(data, r, ov).items| > 0
    ensures exists j :: 0 <= j < |data.detail| && ProductsOf(data.detail[j].results, r) != []
  {
    var sel := Selection(data, r, ov);
    SelectionItemsSourced(data, r, ov);
    assert sel.items[0] in sel.items;
    var j :| 0 <= j < |data.detail| && ChosenFor(data.detail[j], r, ov).Some?
              && FirstKeyAt(data.detail, j, r, ov)
              && sel.items[0] == SelectedItem(QueryLabel(data.detail[j]), ChosenFor(data.detail[j], r, ov).value);
    assert ProductsOf(data.detail[j].results, r) != [];
  }

  /** With pairwise distinct keys, a query with a candidate at the retailer
      puts an item in its selection. */
  lemma CandidateIsSelected(data: ListResponse, r: string, ov: OverridesMap, j: int)
    requires forall i, k :: 0 <= i < k < |data.detail| ==>
               EntryKey(data.detail[i], r, ov) != EntryKey(data.detail[k], r, ov)
    requires 0 <= j < |data.detail| && ProductsOf(data.detail[j].results, r) != []
    ensures |Selection(data, r, ov).items| > 0
  {
    SelectionItemsIncluded(data, r, ov);
    assert ChosenFor(data.detail[j], r, ov).Some?;
    assert FirstKeyAt(data.detail, j, r, ov);
    assert SelectedItem(QueryLabel(data.detail[j]), ChosenFor(data.detail[j], r, ov).value)
             in Selection(data, r, ov).items;
  }

  /** The badge on the best retailer's row shows only when some query has a
      candidate there; with pairwise distinct keys, any such query is
      enough. */
  lemma BestBadgeShown(isBest: bool, data: ListResponse, r: string, ov: OverridesMap)
    ensures ShowBestBadge(isBest, Selection(data, r, ov)) ==>
              isBest && exists j :: 0 <= j < |data.detail| && ProductsOf(data.detail[j].results, r) != []
    ensures (forall i, j :: 0 <= i < j < |data.detail| ==>
               EntryKey(data.detail[i], r, ov) != EntryKey(data.detail[j], r, ov))
            ==> (ShowBestBadge(isBest, Selection(data, r, ov)) <==>
                   isBest && exists j :: 0 <= j < |data.detail| && ProductsOf(data.detail[j].results, r) != [])
  {
    if |Selection(data, r, ov).items| > 0 {
      SelectedHasCandidate(data, r, ov);
    }
    if (forall i, j :: 0 <= i < j < |data.detail| ==>
          EntryKey(data.detail[i], r, ov) != EntryKey(data.detail[j], r, ov))
       && exists j :: 0 <= j < |data.detail| && ProductsOf(data.detail[j].results, r) != []
    {
      var j :| 0 <= j < |data.detail| && ProductsOf(data.detail[j].results, r) != [];
      CandidateIsSelected(data, r, ov, j);
    }
  }

  /** The "covered/total items" caption's first number. */
  function CoveredCount(data: ListResponse, missing: int): int {
    |data.items| - missing
  }

  /** With one detail per listed item and pairwise distinct keys, the
      covered count shown from the retailer's summary is the number of
      products in its selection. */
  lemma CoveredIsSelected(data: ListResponse, r: string, ov: OverridesMap)
    requires |data.items| == |data.detail|
    requires forall i, j :: 0 <= i < j < |data.detail| ==>
               EntryKey(data.detail[i], r, ov) != EntryKey(data.detail[j], r, ov)
    ensures CoveredCount(data, SummaryOf(Selection(data, r, ov)).missing) == |Products(Selection(data, r, ov))|
  {
    DistinctKeysAccountForAll(data, r, ov);
  }
}
