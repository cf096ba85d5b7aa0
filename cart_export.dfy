/**
 * The summary behind the "export PNG" button: the cart's entries grouped
 * by retailer ("Otros" when a product has none) in one pass that creates
 * a block per retailer and adds each entry's units, subtotal and line to
 * it; then the lines of each block ordered by subtotal and the blocks by
 * total, both from largest to smallest. The button is disabled when there
 * are no units.
 */
module CartExport {
  import opened Wrappers
  import opened Catalog
  import opened Sorting
  import opened CartStore
  import opened Grouping
  import opened CartView

  datatype GroupedItem = GroupedItem(productName: string, qty: int, unitPrice: int, subtotal: int)

  datatype GroupBlock = GroupBlock(source: string, units: int, total: int, items: seq<GroupedItem>)

  datatype ExportSummary = ExportSummary(units: int, total: int, groups: seq<GroupBlock>)

  /** The line an entry contributes to its block. */
  function LineOf(it: CartItem): GroupedItem {
    GroupedItem(it.product.name, it.qty, PriceOrZero(it.product), PriceOrZero(it.product) * it.qty)
  }

  function Lines(values: seq<CartItem>): (r: seq<GroupedItem>)
    ensures |r| == |values| && forall i :: 0 <= i < |values| ==> r[i] == LineOf(values[i])
  {
    seq(|values|, i requires 0 <= i < |values| => LineOf(values[i]))
  }

  function BlockOf(b: Bucket<CartItem>): GroupBlock {
    GroupBlock(b.key, Units(b.members), Total(b.members), Lines(b.members))
  }

  function BlockSource(g: GroupBlock): string {
    g.source
  }

  function BlockUnits(g: GroupBlock): int {
    g.units
  }

  function BlockTotal(g: GroupBlock): int {
    g.total
  }

  /** The blocks the loop has built after `values`, before sorting. */
  function Blocks(values: seq<CartItem>): seq<GroupBlock> {
    MapBuckets(GroupBy(values, SourceOf), BlockOf)
  }

  /** `b.subtotal - a.subtotal <= 0`. */
  predicate SubtotalDesc(a: GroupedItem, b: GroupedItem) {
    a.subtotal >= b.subtotal
  }

  /** `b.total - a.total <= 0`. */
  predicate TotalDesc(a: GroupBlock, b: GroupBlock) {
    a.total >= b.total
  }

  function WithSortedItems(g: GroupBlock): GroupBlock {
    g.(items := SortBy(g.items, SubtotalDesc))
  }

  function SortItems(bs: seq<GroupBlock>): (r: seq<GroupBlock>)
    ensures |r| == |bs| && forall k :: 0 <= k < |bs| ==> r[k] == WithSortedItems(bs[k])
  {
    seq(|bs|, k requires 0 <= k < |bs| => WithSortedItems(bs[k]))
  }

  /** The blocks as exported. */
  function ExportGroups(values: seq<CartItem>): (r: seq<GroupBlock>)
    ensures multiset(r) == multiset(SortItems(Blocks(values)))
    ensures forall i, j :: 0 <= i < j < |r| ==> r[i].total >= r[j].total
  {
    SortedLaws();
    var r := SortBy(SortItems(Blocks(values)), TotalDesc);
    SortedPairwise(r, TotalDesc);
    r
  }

  lemma IndexOfSameKeys(gs: seq<Bucket<CartItem>>, bs: seq<GroupBlock>, k: string)
    requires |gs| == |bs| && forall j :: 0 <= j < |gs| ==> BucketKey(gs[j]) == BlockSource(bs[j])
    ensures IndexOf(gs, BucketKey, k) == IndexOf(bs, BlockSource, k)
  {
  }

  lemma LinesSnoc(xs: seq<CartItem>, x: CartItem)
    ensures Lines(xs + [x]) == Lines(xs) + [LineOf(x)]
  {
  }

  /** The block the loop creates for a retailer it has not seen yet. */
  function EmptyBlock(source: string): GroupBlock {
    GroupBlock(source, 0, 0, [])
  }

  /** A block after the loop adds an entry's units, subtotal and line. */
  function Grow(g: GroupBlock, it: CartItem): GroupBlock {
    GroupBlock(g.source, g.units + it.qty, g.total + LineTotal(it), g.items + [LineOf(it)])
  }

  lemma BlockOfEmpty(k: string)
    ensures BlockOf(Bucket(k, [])) == EmptyBlock(k)
  {
    assert Units([]) == 0 && Total([]) == 0 && Lines([]) == [];
  }

  /** The block of a bucket with one more entry is the block grown by it. */
  lemma BlockOfSnoc(k: string, m: seq<CartItem>, x: CartItem)
    ensures BlockOf(Bucket(k, m + [x])) == Grow(BlockOf(Bucket(k, m)), x)
  {
    SumByAddOne(m, QtyOf, x);
    SumByAddOne(m, LineTotal, x);
    LinesSnoc(m, x);
  }

  /** A loop step on an entry whose retailer has no bucket yet appends a
      new block grown by the entry. */
  lemma MappedStepNew(gs: seq<Bucket<CartItem>>, x: CartItem)
    requires IndexOf(gs, BucketKey, SourceOf(x)).None?
    ensures MapBuckets(AddTo(gs, SourceOf(x), x), BlockOf) == MapBuckets(gs, BlockOf) + [Grow(EmptyBlock(SourceOf(x)), x)]
  {
    MapAddToNew(gs, SourceOf(x), x, BlockOf);
    BlockOfSnoc(SourceOf(x), [], x);
    BlockOfEmpty(SourceOf(x));
    assert [] + [x] == [x];
  }

  /** A loop step on an entry whose retailer has bucket `j` grows block `j`. */
  lemma MappedStepFound(gs: seq<Bucket<CartItem>>, x: CartItem, j: nat)
    requires IndexOf(gs, BucketKey, SourceOf(x)) == Some(j)
    ensures var bs := MapBuckets(gs, BlockOf);
            MapBuckets(AddTo(gs, SourceOf(x), x), BlockOf) == bs[j := Grow(bs[j], x)]
  {
    MapAddToFound(gs, SourceOf(x), x, BlockOf, j);
    assert gs[j] == Bucket(SourceOf(x), gs[j].members);
    BlockOfSnoc(SourceOf(x), gs[j].members, x);
  }

  /** One step of the grouping loop on `blocks`: the entry's block is
      created empty when missing, then grown by the entry. */
  predicate Stepped(blocks: seq<GroupBlock>, it: CartItem, next: seq<GroupBlock>) {
    match IndexOf(blocks, BlockSource, SourceOf(it))
    case None => next == blocks + [Grow(EmptyBlock(SourceOf(it)), it)]
    case Some(j) => next == blocks[j := Grow(blocks[j], it)]
  }

  /** Stepping the blocks of buckets `gs` with `x` gives the blocks of
      the buckets after `x` joins them. */
  lemma SteppedBuckets(gs: seq<Bucket<CartItem>>, x: CartItem, next: seq<GroupBlock>)
    requires Stepped(MapBuckets(gs, BlockOf), x, next)
    ensures next == MapBuckets(AddTo(gs, SourceOf(x), x), BlockOf)
  {
    IndexOfSameKeys(gs, MapBuckets(gs, BlockOf), SourceOf(x));
    match IndexOf(gs, BucketKey, SourceOf(x))
    case None => MappedStepNew(gs, x);
    case Some(j) => MappedStepFound(gs, x, j);
  }

  /** Stepping the blocks of `xs` with `x` gives the blocks of `xs + [x]`. */
  lemma SteppedBlocks(xs: seq<CartItem>, x: CartItem, next: seq<GroupBlock>)
    requires Stepped(Blocks(xs), x, next)
    ensures next == Blocks(xs + [x])
  {
    SteppedBuckets(GroupBy(xs, SourceOf), x, next);
    GroupBySnoc(xs, SourceOf, x);
  }

  /** The loop body: find or create the entry's block, then add the
      entry's units, subtotal and line to it. */
  method AddEntry(blocks: seq<GroupBlock>, it: CartItem) returns (next: seq<GroupBlock>)
    ensures Stepped(blocks, it, next)
  {
    var source := SourceOf(it);
    var unitPrice := PriceOrZero(it.product);
    var qty := it.qty;
    var subtotal := unitPrice * qty;
    next := blocks;
    var j := IndexOf(next, BlockSource, source);
    if j.None? {
      next := next + [EmptyBlock(source)];
      j := Some(|next| - 1);
    }
    var g := next[j.value];
    next := next[j.value := GroupBlock(g.source, g.units + qty, g.total + subtotal,
                                       g.items + [GroupedItem(it.product.name, qty, unitPrice, subtotal)])];
    assert next[j.value] == Grow(g, it);
    if IndexOf(blocks, BlockSource, source).None? {
      assert next == blocks + [Grow(EmptyBlock(source), it)];
    }
  }

  /** The `useMemo` computation: one pass building the blocks, the lines of
      each block and then the blocks sorted, and the cart-wide units and
      total folded separately. */
  method Summarize(values: seq<CartItem>) returns (s: ExportSummary)
    ensures s.units == Units(values) && s.total == Total(values)
    ensures s.groups == ExportGroups(values)
  {
    var blocks: seq<GroupBlock> := [];
    for i := 0 to |values|
      invariant blocks == Blocks(values[..i])
    {
      blocks := AddEntry(blocks, values[i]);
      SteppedBlocks(values[..i], values[i], blocks);
      assert values[..i + 1] == values[..i] + [values[i]];
    }
    assert values[..|values|] == values;
    var groupsArr := SortItems(blocks);
    s := ExportSummary(Units(values), Total(values), SortBy(groupsArr, TotalDesc));
  }

  /** A block for retailer `g.source`: its units and total are the sums
      over that retailer's entries, its lines are theirs, ordered by
      subtotal from largest to smallest. */
  predicate BlockOfEntries(values: seq<CartItem>, g: GroupBlock) {
    var entries := Filter(values, SourceOf, g.source);
    && entries != []
    && g.units == Units(entries)
    && g.total == Total(entries)
    && multiset(g.items) == multiset(Lines(entries))
    && forall a, b :: 0 <= a < b < |g.items| ==> g.items[a].subtotal >= g.items[b].subtotal
  }

  lemma SortedLaws()
    ensures TotalOrder(SubtotalDesc) && Transitive(SubtotalDesc)
    ensures TotalOrder(TotalDesc) && Transitive(TotalDesc)
  {
  }

  lemma UnsortedBlocks(values: seq<CartItem>)
    ensures var u := SortItems(Blocks(values));
            && (forall i, j :: 0 <= i < j < |u| ==> BlockSource(u[i]) != BlockSource(u[j]))
            && (forall i :: 0 <= i < |values| ==> Carried(u, BlockSource, Sources(values)[i]))
            && (forall k :: 0 <= k < |u| ==> BlockOfEntries(values, u[k]))
  {
    var gs := GroupBy(values, SourceOf);
    var u := SortItems(Blocks(values));
    GroupByGroups(values, SourceOf);
    SortedLaws();
    forall k | 0 <= k < |u|
      ensures u[k] == WithSortedItems(BlockOf(gs[k])) && BlockOfEntries(values, u[k])
    {
      var items := BlockOf(gs[k]).items;
      SortedPairwise(SortBy(items, SubtotalDesc), SubtotalDesc);
    }
    forall i | 0 <= i < |values|
      ensures Carried(u, BlockSource, Sources(values)[i])
    {
      var a :| 0 <= a < |gs| && gs[a].key == SourceOf(values[i]);
      assert BlockSource(u[a]) == Sources(values)[i];
    }
  }

  /** The exported blocks: one per retailer (every entry's retailer has
      one), each summing exactly its retailer's entries with its lines
      ordered by subtotal, and the blocks ordered by total, largest first. */
  lemma ExportGroupsPartitionCart(values: seq<CartItem>)
    ensures var gs := ExportGroups(values);
            && (forall i, j :: 0 <= i < j < |gs| ==> gs[i].source != gs[j].source)
            && (forall i :: 0 <= i < |values| ==> Carried(gs, BlockSource, SourceOf(values[i])))
            && (forall k :: 0 <= k < |gs| ==> BlockOfEntries(values, gs[k]))
            && (forall i, j :: 0 <= i < j < |gs| ==> gs[i].total >= gs[j].total)
  {
    var u := SortItems(Blocks(values));
    var gs := ExportGroups(values);
    UnsortedBlocks(values);
    DistinctKeysKept(u, gs, BlockSource);
    PermutationKeeps(u, gs, g => BlockOfEntries(values, g));
    PermutationCovers(u, gs, BlockSource, Sources(values));
  }

  /** The cart-wide units and total equal the sums over the exported blocks. */
  lemma ExportSumsAddUp(values: seq<CartItem>)
    ensures SumBy(ExportGroups(values), BlockUnits) == Units(values)
    ensures SumBy(ExportGroups(values), BlockTotal) == Total(values)
  {
    var gs := GroupBy(values, SourceOf);
    var bs := Blocks(values);
    var u := SortItems(bs);
    SumMapped(gs, QtyOf, BlockOf, BlockUnits);
    SumMapped(gs, LineTotal, BlockOf, BlockTotal);
    GroupSums(values, SourceOf, QtyOf);
    GroupSums(values, SourceOf, LineTotal);
    SameSums(bs);
    SumByPermutation(u, ExportGroups(values), BlockUnits);
    SumByPermutation(u, ExportGroups(values), BlockTotal);
  }

  lemma SameSums(bs: seq<GroupBlock>)
    ensures SumBy(SortItems(bs), BlockUnits) == SumBy(bs, BlockUnits)
    ensures SumBy(SortItems(bs), BlockTotal) == SumBy(bs, BlockTotal)
  {
    var u := SortItems(bs);
    assert forall k :: 0 <= k < |bs| ==> u[k].units == bs[k].units && u[k].total == bs[k].total;
    SumByPointwise(u, bs, BlockUnits);
    SumByPointwise(u, bs, BlockTotal);
  }

  /** The export button's disabled rule. */
  predicate ExportDisabled(s: ExportSummary) {
    s.units == 0
  }

  /** For a valid cart the button is disabled exactly when the cart is empty. */
  lemma DisabledIffEmptyCart(c: CartState, keys: seq<string>, s: ExportSummary)
    requires Enumerates(keys, c) && ValidCart(c)
    requires s.units == Units(ValuesIn(c, keys))
    ensures ExportDisabled(s) <==> c == map[]
  {
    EmptyStateIffNoEntries(c, keys);
  }
}
