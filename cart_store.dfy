/**
 * The persisted shopping cart: a map from a product key to the product and a
 * quantity clamped to [0, MAX_QTY], where a quantity of zero means the entry
 * is gone. Each mutator derives a new map from the old one and stores it.
 */
module CartStore {
  import opened Wrappers
  import opened Catalog
  import opened Sorting

  const MAX_QTY: int := 10

  datatype CartItem = CartItem(product: Product, qty: int)

  type CartState = map<string, CartItem>

  /** `Math.max(0, Math.min(MAX_QTY, q))`. */
  function ClampQty(q: int): (r: int)
    ensures 0 <= r <= MAX_QTY
    ensures 0 <= q <= MAX_QTY ==> r == q
    ensures q < 0 ==> r == 0
    ensures q > MAX_QTY ==> r == MAX_QTY
  {
    if q < 0 then 0 else if q > MAX_QTY then MAX_QTY else q
  }

  /** `cart[id]?.qty ?? 0`. */
  function GetQty(c: CartState, id: string): (q: int)
    ensures id !in c ==> q == 0
  {
    if id in c then c[id].qty else 0
  }

  /** The invariant every mutator keeps: each stored quantity is in [1, MAX_QTY]. */
  predicate ValidCart(c: CartState) {
    forall id :: id in c ==> 1 <= c[id].qty <= MAX_QTY
  }

  /** Two carts that agree on every key except `id`. */
  ghost predicate SameExcept(c: CartState, d: CartState, id: string) {
    forall k :: k != id ==> (k in c <==> k in d) && (k in c ==> c[k] == d[k])
  }

  /** The cart `addOne(product)` stores. */
  function AddedOne(c: CartState, product: Product): (r: CartState)
    ensures var id := IdOrUndefined(product);
      && SameExcept(r, c, id)
      && (id in r <==> GetQty(c, id) + 1 > 0)
      && (id in r ==> r[id] == CartItem(product, ClampQty(GetQty(c, id) + 1)))
    ensures ValidCart(c) ==> (
      && ValidCart(r)
      && var id := IdOrUndefined(product);
         id in r && r[id].qty == (if GetQty(c, id) < MAX_QTY then GetQty(c, id) + 1 else MAX_QTY))
    ensures ValidCart(c) ==> |r| == |c| + (if IdOrUndefined(product) in c then 0 else 1)
  {
    var id := IdOrUndefined(product);
    var next := ClampQty(GetQty(c, id) + 1);
    if next == 0 then c - {id} else StoredSize(c, id, CartItem(product, next)); c[id := CartItem(product, next)]
  }

  /** Storing at a key adds one entry exactly when the key was new. */
  lemma StoredSize(c: CartState, id: string, it: CartItem)
    ensures |c[id := it]| == |c| + (if id in c then 0 else 1)
  {
    if id in c {
      assert c[id := it].Keys == c.Keys;
    } else {
      assert c[id := it].Keys == c.Keys + {id};
    }
  }

  /** Dropping a key removes one entry exactly when the key was there. */
  lemma DroppedSize(c: CartState, id: string)
    ensures |c - {id}| == |c| - (if id in c then 1 else 0)
  {
    if id in c {
      assert (c - {id}).Keys == c.Keys - {id};
    } else {
      assert c - {id} == c;
    }
  }

  /** The cart `removeOne(id)` stores. */
  function RemovedOne(c: CartState, id: string): (r: CartState)
    ensures SameExcept(r, c, id)
    ensures id !in c ==> r == c
    ensures id in c && 1 <= c[id].qty <= MAX_QTY ==>
      if c[id].qty == 1 then id !in r else id in r && r[id] == c[id].(qty := c[id].qty - 1)
    ensures ValidCart(c) ==> ValidCart(r)
  {
    var next := ClampQty(GetQty(c, id) - 1);
    if next <= 0 then c - {id} else c[id := c[id].(qty := next)]
  }

  /** On a valid cart, `removeOne` drops an entry exactly when its
      quantity was 1. */
  lemma RemovedOneSize(c: CartState, id: string)
    requires ValidCart(c)
    ensures |RemovedOne(c, id)| == |c| - (if id in c && c[id].qty == 1 then 1 else 0)
  {
    if id in c && c[id].qty == 1 {
      DroppedSize(c, id);
    } else if id in c {
      StoredSize(c, id, c[id].(qty := c[id].qty - 1));
    }
  }

  /** The cart `setQty(product, q)` stores. */
  function WithQty(c: CartState, product: Product, q: int): (r: CartState)
    ensures var id := IdOrUndefined(product);
      && SameExcept(r, c, id)
      && (q <= 0 ==> id !in r)
      && (q > 0 ==> id in r && r[id] == CartItem(product, if q > MAX_QTY then MAX_QTY else q))
    ensures ValidCart(c) ==> ValidCart(r)
    ensures var id := IdOrUndefined(product);
      |r| == if q <= 0 then |c| - (if id in c then 1 else 0) else |c| + (if id in c then 0 else 1)
  {
    var id := IdOrUndefined(product);
    var next := ClampQty(q);
    if next <= 0 then DroppedSize(c, id); c - {id}
    else StoredSize(c, id, CartItem(product, next)); c[id := CartItem(product, next)]
  }

  /** The cart `removeItem(id)` stores. */
  function Removed(c: CartState, id: string): (r: CartState)
    ensures id !in r && SameExcept(r, c, id)
    ensures id !in c ==> r == c
    ensures |r| == if id in c then |c| - 1 else |c|
    ensures ValidCart(c) ==> ValidCart(r)
  {
    c - {id}
  }

  /** `(price ?? 0) * qty`. */
  function LineTotal(it: CartItem): int {
    PriceOrZero(it.product) * it.qty
  }

  /** `cartTotal`: the sum of the line totals of the cart's entries. */
  ghost function CartTotal(c: CartState): int
    decreases |c|
  {
    if c == map[] then 0
    else
      var k :| k in c;
      assert |c - {k}| < |c| by { assert (c - {k}).Keys == c.Keys - {k}; }
      LineTotal(c[k]) + CartTotal(c - {k})
  }

  /** The total splits off any one entry, whichever entry the definition picks. */
  lemma {:induction false} CartTotalSplit(c: CartState, k: string)
    requires k in c
    ensures CartTotal(c) == LineTotal(c[k]) + CartTotal(c - {k})
    decreases |c|
  {
    var j :| j in c && CartTotal(c) == LineTotal(c[j]) + CartTotal(c - {j});
    if j != k {
      assert (c - {j}).Keys == c.Keys - {j};
      assert (c - {k}).Keys == c.Keys - {k};
      CartTotalSplit(c - {j}, k);
      CartTotalSplit(c - {k}, j);
      assert c - {j} - {k} == c - {k} - {j};
    }
  }

  /** The entries of `c` listed in the order of `keys`: what
      `Object.values(cart)` yields when the object enumerates its keys in
      that order. */
  function ValuesIn(c: CartState, keys: seq<string>): (vs: seq<CartItem>)
    requires forall i :: 0 <= i < |keys| ==> keys[i] in c
    ensures |vs| == |keys| && forall i :: 0 <= i < |keys| ==> vs[i] == c[keys[i]]
  {
    seq(|keys|, i requires 0 <= i < |keys| => c[keys[i]])
  }

  /** `keys` lists every key of `c` exactly once. */
  predicate Enumerates(keys: seq<string>, c: CartState) {
    && (forall i, j :: 0 <= i < j < |keys| ==> keys[i] != keys[j])
    && (forall i :: 0 <= i < |keys| ==> keys[i] in c)
    && (forall k :: k in c ==> k in keys)
  }

  /** Folding the line totals over the entries in any enumeration order gives
      `cartTotal`. */
  lemma {:induction false} CartTotalEnumeration(c: CartState, keys: seq<string>)
    requires Enumerates(keys, c)
    ensures SumBy(ValuesIn(c, keys), LineTotal) == CartTotal(c)
    decreases |keys|
  {
    if keys == [] {
      assert c == map[];
    } else {
      var n := |keys| - 1;
      var k := keys[n];
      var d := c - {k};
      assert Enumerates(keys[..n], d) by {
        forall x | x in d ensures x in keys[..n] {
          var i :| 0 <= i < |keys| && keys[i] == x;
          assert i != n;
        }
      }
      CartTotalEnumeration(d, keys[..n]);
      assert ValuesIn(c, keys)[..n] == ValuesIn(d, keys[..n]);
      CartTotalSplit(c, k);
    }
  }

  /** Storing an entry at `id` replaces that key's line in the total. */
  lemma CartTotalStore(c: CartState, id: string, it: CartItem)
    ensures CartTotal(c[id := it]) == LineTotal(it) + CartTotal(c - {id})
  {
    var r := c[id := it];
    CartTotalSplit(r, id);
    assert r - {id} == c - {id};
  }

  /** Below the cap, `addOne` stores the quantity plus one. */
  lemma AddedOneBelowCap(c: CartState, product: Product)
    requires ValidCart(c) && GetQty(c, IdOrUndefined(product)) < MAX_QTY
    ensures AddedOne(c, product) == c[IdOrUndefined(product) := CartItem(product, GetQty(c, IdOrUndefined(product)) + 1)]
  {
  }

  lemma LineTotalSucc(product: Product, q: int)
    ensures LineTotal(CartItem(product, q + 1)) == LineTotal(CartItem(product, q)) + PriceOrZero(product)
  {
    MulSucc(PriceOrZero(product), q);
  }

  /** Storing `product` at one unit more than the entry held (none held
      counting as zero) raises the total by one unit price. */
  lemma CartTotalOneMore(c: CartState, r: CartState, product: Product)
    requires var id := IdOrUndefined(product); id in c ==> c[id].product == product
    requires r == c[IdOrUndefined(product) := CartItem(product, GetQty(c, IdOrUndefined(product)) + 1)]
    ensures CartTotal(r) == CartTotal(c) + PriceOrZero(product)
  {
    var id := IdOrUndefined(product);
    var q := GetQty(c, id);
    CartTotalStore(c, id, CartItem(product, q + 1));
    LineTotalSucc(product, q);
    if id in c {
      assert c[id] == CartItem(product, q);
      CartTotalSplit(c, id);
    } else {
      assert c - {id} == c;
      MulZero(PriceOrZero(product));
    }
  }

  /** Adding one unit below the cap raises the total by one unit price,
      provided the stored product is the one being added. */
  lemma AddOneRaisesTotal(c: CartState, product: Product)
    requires ValidCart(c)
    requires var id := IdOrUndefined(product); GetQty(c, id) < MAX_QTY && (id in c ==> c[id].product == product)
    ensures CartTotal(AddedOne(c, product)) == CartTotal(c) + PriceOrZero(product)
  {
    AddedOneBelowCap(c, product);
    CartTotalOneMore(c, AddedOne(c, product), product);
  }

  lemma MulZero(p: int)
    ensures p * 0 == 0
  {
  }

  lemma MulSucc(p: int, q: int)
    ensures p * (q + 1) == p * q + p
  {
  }

  /** The `$cart` store. */
  class Cart {
    var items: CartState

    /** The cart as loaded from storage (`{}` when nothing was stored). */
    constructor (stored: CartState)
      ensures items == stored
    {
      items := stored;
    }

    ghost predicate Valid()
      reads this
    {
      ValidCart(items)
    }

    /** `getQty(id)`. */
    function Qty(id: string): (q: int)
      reads this
      ensures Valid() ==> (q == 0 <==> id !in items)
    {
      GetQty(items, id)
    }

    /** `cartCount`: the number of entries; the badge hides at zero, which
        happens exactly when the cart is empty. */
    function Count(): (n: nat)
      reads this
      ensures n == 0 <==> items == map[]
      ensures forall id :: id in items ==> n >= 1
    {
      |items|
    }

    /** `cartTotal`. */
    ghost function Total(): int
      reads this
    {
      CartTotal(items)
    }

    /** `addOne(product)`. */
    method AddOne(product: Product)
      modifies this
      ensures items == AddedOne(old(items), product)
      ensures old(Valid()) ==> Valid()
      ensures old(Valid()) ==> Count() == old(Count()) + (if IdOrUndefined(product) in old(items) then 0 else 1)
    {
      var id := IdOrUndefined(product);
      var next := ClampQty(GetQty(items, id) + 1);
      if next == 0 {
        if id in items {
          items := items - {id};
        }
        return;
      }
      items := items[id := CartItem(product, next)];
    }

    /** `removeOne(id)`. */
    method RemoveOne(id: string)
      modifies this
      ensures items == RemovedOne(old(items), id)
      ensures old(Valid()) ==> Valid()
      ensures old(Valid()) ==> Count() == old(Count()) - (if id in old(items) && old(items)[id].qty == 1 then 1 else 0)
    {
      if Valid() {
        RemovedOneSize(items, id);
      }
      var next := ClampQty(GetQty(items, id) - 1);
      if next <= 0 {
        if id !in items {
          return;
        }
        items := items - {id};
        return;
      }
      items := items[id := items[id].(qty := next)];
    }

    /** `setQty(product, q)`. */
    method SetQty(product: Product, q: int)
      modifies this
      ensures items == WithQty(old(items), product, q)
      ensures old(Valid()) ==> Valid()
      ensures var id := IdOrUndefined(product);
        Count() == if q <= 0 then old(Count()) - (if id in old(items) then 1 else 0)
                   else old(Count()) + (if id in old(items) then 0 else 1)
    {
      var id := IdOrUndefined(product);
      var next := ClampQty(q);
      if next <= 0 {
        if id !in items {
          return;
        }
        items := items - {id};
        return;
      }
      items := items[id := CartItem(product, next)];
    }

    /** `removeItem(id)`. */
    method RemoveItem(id: string)
      modifies this
      ensures items == Removed(old(items), id)
      ensures old(Valid()) ==> Valid()
      ensures Count() == old(Count()) - (if id in old(items) then 1 else 0)
    {
      if id !in items {
        return;
      }
      items := items - {id};
    }

    /** `clearCart()`. */
    method ClearCart()
      modifies this
      ensures items == map[] && Valid() && Count() == 0
    {
      items := map[];
    }
  }
}
