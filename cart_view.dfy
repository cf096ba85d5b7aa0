/**
 * The cart drawer: unit count and total over the cart's entries, and the
 * entries grouped by retailer ("Otros" when a product has none), each
 * group with its own units and total, groups ordered by retailer name.
 * The entries are taken as the list `Object.values(cart)` yields.
 */
module CartView {
  import opened Wrappers
  import opened Strings
  import opened Catalog
  import opened Sorting
  import opened CartStore
  import opened Grouping

  function QtyOf(it: CartItem): int {
    it.qty
  }

  /** The number of units: the quantities summed. */
  function Units(values: seq<CartItem>): int {
    SumBy(values, QtyOf)
  }

  /** The amount: `(price ?? 0) * qty` summed. */
  function Total(values: seq<CartItem>): int {
    SumBy(values, LineTotal)
  }

  /** The group an entry belongs to: its retailer, or "Otros". */
  function SourceOf(it: CartItem): string {
    it.product.retailer.GetOr("Otros")
  }

  datatype CartGroup = CartGroup(source: string, groupItems: seq<CartItem>, groupUnits: int, groupTotal: int)

  function MakeGroup(b: Bucket<CartItem>): CartGroup {
    CartGroup(b.key, b.members, Units(b.members), Total(b.members))
  }

  function GroupSource(g: CartGroup): string {
    g.source
  }

  function GroupUnits(g: CartGroup): int {
    g.groupUnits
  }

  function GroupTotal(g: CartGroup): int {
    g.groupTotal
  }

  predicate SourceLe(a: CartGroup, b: CartGroup) {
    StrLe(a.source, b.source)
  }

  lemma SourceLeLaws()
    ensures TotalOrder(SourceLe) && Transitive(SourceLe)
  {
    forall a: CartGroup, b: CartGroup
      ensures SourceLe(a, b) || SourceLe(b, a)
    {
      StrLeTotal(a.source, b.source);
    }
    forall a: CartGroup, b: CartGroup, c: CartGroup | SourceLe(a, b) && SourceLe(b, c)
      ensures SourceLe(a, c)
    {
      StrLeTransitive(a.source, b.source, c.source);
    }
  }

  /** The groups in the order each retailer first appears. */
  function Unsorted(values: seq<CartItem>): seq<CartGroup> {
    MapBuckets(GroupBy(values, SourceOf), MakeGroup)
  }

  /** The groups as the drawer lists them: sorted by retailer name. */
  function Groups(values: seq<CartItem>): (r: seq<CartGroup>)
    ensures multiset(r) == multiset(Unsorted(values))
    ensures forall i, j :: 0 <= i < j < |r| ==> StrLe(r[i].source, r[j].source)
  {
    SourceLeLaws();
    var r := SortBy(Unsorted(values), SourceLe);
    SortedPairwise(r, SourceLe);
    r
  }

  /** A group of retailer `g.source` holding exactly that retailer's
      entries, in cart order, with their units and total. */
  predicate GroupOf(values: seq<CartItem>, g: CartGroup) {
    && g.groupItems == Filter(values, SourceOf, g.source)
    && g.groupItems != []
    && g.groupUnits == Units(g.groupItems)
    && g.groupTotal == Total(g.groupItems)
  }

  function Sources(values: seq<CartItem>): (r: seq<string>)
    ensures |r| == |values| && forall i :: 0 <= i < |values| ==> r[i] == SourceOf(values[i])
  {
    seq(|values|, i requires 0 <= i < |values| => SourceOf(values[i]))
  }

  lemma UnsortedPartitionsCart(values: seq<CartItem>)
    ensures var u := Unsorted(values);
            && (forall i, j :: 0 <= i < j < |u| ==> GroupSource(u[i]) != GroupSource(u[j]))
            && (forall i :: 0 <= i < |values| ==> Carried(u, GroupSource, Sources(values)[i]))
            && (forall k :: 0 <= k < |u| ==> GroupOf(values, u[k]))
  {
    var bs := GroupBy(values, SourceOf);
    var u := Unsorted(values);
    GroupByGroups(values, SourceOf);
    assert forall a :: 0 <= a < |u| ==> u[a] == MakeGroup(bs[a]);
    forall i | 0 <= i < |values|
      ensures Carried(u, GroupSource, Sources(values)[i])
    {
      var a :| 0 <= a < |bs| && bs[a].key == SourceOf(values[i]);
      assert GroupSource(u[a]) == Sources(values)[i];
    }
  }

  /** Every entry lands in exactly one group, the one of its retailer; a
      group holds exactly its retailer's entries in cart order, and its
      units and total are the sums over them. */
  lemma GroupsPartitionCart(values: seq<CartItem>)
    ensures var gs := Groups(values);
            && (forall i, j :: 0 <= i < j < |gs| ==> gs[i].source != gs[j].source)
            && (forall i :: 0 <= i < |values| ==> Carried(gs, GroupSource, SourceOf(values[i])))
            && (forall k :: 0 <= k < |gs| ==> GroupOf(values, gs[k]))
  {
    var u := Unsorted(values);
    var gs := Groups(values);
    UnsortedPartitionsCart(values);
    DistinctKeysKept(u, gs, GroupSource);
    PermutationKeeps(u, gs, g => GroupOf(values, g));
    PermutationCovers(u, gs, GroupSource, Sources(values));
  }

  /** The group units add up to the drawer's units and the group totals to
      its total. */
  lemma GroupsAddUp(values: seq<CartItem>)
    ensures SumBy(Groups(values), GroupUnits) == Units(values)
    ensures SumBy(Groups(values), GroupTotal) == Total(values)
  {
    var bs := GroupBy(values, SourceOf);
    SumMapped(bs, QtyOf, MakeGroup, GroupUnits);
    SumMapped(bs, LineTotal, MakeGroup, GroupTotal);
    GroupSums(values, SourceOf, QtyOf);
    GroupSums(values, SourceOf, LineTotal);
    SumByPermutation(Unsorted(values), Groups(values), GroupUnits);
    SumByPermutation(Unsorted(values), Groups(values), GroupTotal);
  }

  /** The drawer's total over the listed entries is the store's `cartTotal`,
      whatever order the entries are listed in. */
  lemma DrawerTotalIsCartTotal(c: CartState, keys: seq<string>)
    requires Enumerates(keys, c)
    ensures Total(ValuesIn(c, keys)) == CartTotal(c)
  {
    CartTotalEnumeration(c, keys);
  }

  lemma {:induction false} UnitsPositive(values: seq<CartItem>)
    requires forall i :: 0 <= i < |values| ==> values[i].qty >= 1
    ensures Units(values) >= |values|
    decreases |values|
  {
    if values != [] {
      UnitsPositive(values[..|values| - 1]);
    }
  }

  /** The empty state shows exactly when the cart has no entries; in a
      valid cart that is also exactly when the unit count is zero. */
  lemma EmptyStateIffNoEntries(c: CartState, keys: seq<string>)
    requires Enumerates(keys, c)
    ensures |ValuesIn(c, keys)| == 0 <==> c == map[]
    ensures ValidCart(c) ==> (Units(ValuesIn(c, keys)) == 0 <==> c == map[])
  {
    var vs := ValuesIn(c, keys);
    if c != map[] {
      var k :| k in c;
      assert k in keys;
    }
    if ValidCart(c) {
      UnitsPositive(vs);
    }
  }
}
