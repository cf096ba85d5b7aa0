# mi-ahorro-frontend: a Dafny model of the price-comparison client

mi-ahorro-frontend is the browser client of a supermarket price
comparator. The user chooses retail chains (DIA, Carrefour, Jumbo, Vea) and
searches either one term or a pasted shopping list. For a single term, the
client merges every chain's products into one list, marks the lowest price
and sorts by price. For a list, it builds one selection per chain: for each
query, the product that stands for it (the chain's first candidate, or the
one the user picked in the option picker) and the queries the chain cannot
serve. From those selections it derives per-chain totals and the best
chain. A persisted cart collects products with clamped quantities. The
cart drawer and the PNG export group the cart by chain and report units
and totals.

The model follows the source file by file:

| module | source | form |
|---|---|---|
| `Catalog`, `Strings`, `Wrappers`, `Sorting`, `Grouping` | shared values and the runtime operations the code relies on (`trim`, `toLowerCase`, `includes`, `split`, `localeCompare`, `Array.prototype.sort`, `reduce`, grouping into a keyed collection) | datatypes, functions, lemmas |
| `Retailers` | `src/types/retailers.ts` | datatypes, functions, lemmas |
| `RetailersStore` | `src/store/retailers.store.ts` | a class over the two atoms, plus list functions |
| `CartStore` | `src/store/cart.store.ts` | a class `Cart` whose methods reassign the cart map, each tied to a pure function on maps |
| `ShoppingUtils`, `SelectionFacts`, `SelectionFinding` | `shopping.utils.ts` | functions; the two loops as methods proved against the functions |
| `ShoppingOverrides` | `useShoppingOverrides.ts` | a class over the hook's state |
| `FormSearch` | `FormSearch.tsx` | functions for parsing and validation; a class over the submitted-search state |
| `ListProducts` | `ListProducts.tsx` | functions; the best-price loop as a method |
| `CartView` | `Cart.tsx` | functions and lemmas |
| `CartExport` | `CartExportButton.tsx` | the grouping loop as methods proved against a function |
| `RetailerRow` | `RetailerRow.tsx` | functions; the add/clear loops as methods on the `Cart` object |

The selection pass keeps a single `seen` set, shared by the labels of
missing queries and the dedupe ids of chosen products. The model keeps that
behaviour everywhere. `SelectionFinding` exhibits an input where a query
without candidates is therefore not reported missing. It also defines a
variant of the pass with one set per kind and proves that the variant
reports every such query.

The option picker's `applyOption` first evicts the previous choice for
the (chain, query) pair from the cart and then records the new pick. A
second `applyOption` with the same pick therefore evicts that pick: the
second call reads it as the previous choice (`useShoppingOverrides.ts`
lines 55-77). `ShoppingOverrides.SecondApplyEvictsPick` states this.

Prices are integers. A product's `price` is `None` when it is absent or
not a finite number. Cart enumeration order (`Object.values`) is a
parameter: `keys`, any listing of the map's keys. Lemmas show that the
totals do not depend on it.

## Model

| member | source | states |
|---|---|---|
| `ShoppingUtils.OvKeyInjective` | src/components/list-products/list-shopping/shopping.utils.ts:15-17 | For retailer names without a colon, an override key `retailer::query` determines both the retailer and the query. |
| `ShoppingUtils.Lookup` | src/components/list-products/list-shopping/shopping.utils.ts:45 | `overrides[key]` is present exactly when the key is stored, and then it is the stored id. |
| `ShoppingUtils.FindById` | src/components/list-products/list-shopping/shopping.utils.ts:25 | The index found is the first product whose `String(id ?? '')` equals the id. No index means no product has it. |
| `ShoppingUtils.PickChosenProduct` | src/components/list-products/list-shopping/shopping.utils.ts:19-29 | No product exactly when there are no candidates. With a non-empty chosen id that some candidate carries, the result is the first such candidate. Otherwise it is the first candidate. |
| `ShoppingUtils.ProductsOf` | src/components/list-products/list-shopping/shopping.utils.ts:42-43 | The result is the products of the first result entry for the retailer, or empty when the retailer has none. |
| `ShoppingUtils.QueryLabel` | src/components/list-products/list-shopping/shopping.utils.ts:41 | A query's label is never empty and is trimmed. It is the trimmed query text whenever that text is not blank. |
| `ShoppingUtils.BuildRetailerSelection` | src/components/list-products/list-shopping/shopping.utils.ts:31-71 | The loop over the queries returns exactly `Selection`. That is: the pass over the queries in order with one `seen` set, plus the sum of the chosen prices, with an absent price counting 0. |
| `ShoppingUtils.FindDetail` | src/components/list-products/list-shopping/shopping.utils.ts:78-80 | The result is the first query whose trimmed text equals the trimmed argument, or none when no query matches. |
| `ShoppingUtils.DefaultProductId` | src/components/list-products/list-shopping/shopping.utils.ts:85-92 | The result is the first option's `String(id ?? '')`, or `""` when there are no options. |
| `ShoppingUtils.ComputeUiSummaries` | src/components/list-products/list-shopping/shopping.utils.ts:94-105 | The map has a key for exactly the ranked retailers. Each value is that retailer's selection total and its number of missing queries. |
| `ShoppingUtils.ComputeUiBestRetailer` | src/components/list-products/list-shopping/shopping.utils.ts:107-129 | No result exactly when nothing is ranked. Otherwise the result is the first ranked retailer that no other beats (fewer missing, or as many and a lower total). Every retailer ranked before it is strictly worse. A retailer without a summary counts as all-missing with total 0. |
| `SelectionFacts.RunWellFormed` | src/components/list-products/list-shopping/shopping.utils.ts:38-64 | After the pass, `seen` is exactly the missing labels plus the items' dedupe ids. No label repeats, no dedupe id repeats, and the two never overlap. Each query adds at most one entry. |
| `SelectionFacts.RunSeenIsKeys` | src/components/list-products/list-shopping/shopping.utils.ts:48-62 | After the pass, `seen` is the set of every query's key: its label when nothing is chosen, else the chosen product's dedupe id. |
| `SelectionFacts.RunMatchesFirstKeys` | src/components/list-products/list-shopping/shopping.utils.ts:40-64 | The pass's items and missing labels are those of the queries whose key occurs first at that position, in query order (reference definition `Collect`). |
| `SelectionFacts.CollectMembers` | src/components/list-products/list-shopping/shopping.utils.ts:40-64 | An entry is in the reference collection exactly when some query whose key is new at its position contributes it. |
| `SelectionFacts.SelectionItemsIncluded` | src/components/list-products/list-shopping/shopping.utils.ts:56-63 | Every query with a chosen product and a new key puts its label and product in the items. |
| `SelectionFacts.SelectionItemsSourced` | src/components/list-products/list-shopping/shopping.utils.ts:56-63 | Every item is the label of some query with a new key, paired with the product chosen for that query. |
| `SelectionFacts.SelectionMissingIncluded` | src/components/list-products/list-shopping/shopping.utils.ts:48-53 | Every query without candidates at the retailer, and with a new key, is in the missing list. |
| `SelectionFacts.SelectionMissingSourced` | src/components/list-products/list-shopping/shopping.utils.ts:48-53 | Every missing label belongs to a query that has no candidate at the retailer and whose key is new. |
| `SelectionFacts.DistinctKeysAccountForAll` | src/components/list-products/list-shopping/shopping.utils.ts:40-64 | When no two queries share a key, items plus missing labels number exactly as many as the queries. |
| `SelectionFacts.CandidatesNeverMissing` | src/components/list-products/list-shopping/shopping.utils.ts:42-53 | When labels are distinct, a query that has candidates at the retailer is never reported missing there. |
| `SelectionFinding.SharedSeenHidesMissingQuery` | src/components/list-products/list-shopping/shopping.utils.ts:49-62 | As written, the query "leche" gets no candidate yet is not reported missing. Its label equals the id of the product chosen for "agua". |
| `SelectionFinding.SplitSelectionReportsEveryMissing` | src/components/list-products/list-shopping/shopping.utils.ts:49-62 | With separate sets for labels and ids, every query without candidates is reported missing, and each label only once. |
| `SelectionFinding.SplitSelectionReportsLeche` | src/components/list-products/list-shopping/shopping.utils.ts:48-53 | On the same input, the corrected pass reports `["leche"]` missing. |
| `ShoppingOverrides.Evicted` | src/components/list-products/list-shopping/useShoppingOverrides.ts:69 | Only the key `prev` can change. A non-empty `prev` is gone from a valid cart afterwards. An empty `prev` changes nothing. Validity is kept. |
| `ShoppingOverrides.OverrideSession.constructor` | src/components/list-products/list-shopping/useShoppingOverrides.ts:18-24 | The hook starts with no overrides, the picker closed, and no active retailer, query or highlighted option. |
| `ShoppingOverrides.OverrideSession.Options` | src/components/list-products/list-shopping/useShoppingOverrides.ts:26-29 | With no data or no target, there are no options. Otherwise the options are the candidates for the active retailer and query. |
| `ShoppingOverrides.OverrideSession.UiSummaries` | src/components/list-products/list-shopping/useShoppingOverrides.ts:31-35 | An empty map without data. Otherwise one summary per ranked retailer under the current overrides. |
| `ShoppingOverrides.OverrideSession.UiBestRetailer` | src/components/list-products/list-shopping/useShoppingOverrides.ts:37-40 | None without data. Otherwise the first unbeaten ranked retailer under the current overrides. |
| `ShoppingOverrides.OverrideSession.OpenOptions` | src/components/list-products/list-shopping/useShoppingOverrides.ts:42-51 | Sets the target, highlights the current product's `String(id ?? '')` and opens the picker. The overrides stay unchanged. |
| `ShoppingOverrides.OverrideSession.SetSelectedOptionId` | src/components/list-products/list-shopping/useShoppingOverrides.ts:22-24 | Only the highlighted option changes. |
| `ShoppingOverrides.OverrideSession.Close` | src/components/list-products/list-shopping/useShoppingOverrides.ts:53 | Closes the picker and changes nothing else. |
| `ShoppingOverrides.OverrideSession.ApplyOption` | src/components/list-products/list-shopping/useShoppingOverrides.ts:55-77 | Without data or target it does nothing. Otherwise it removes the previously effective id from the cart when that id is held, stores the highlighted option under `retailer::query` (`""` when none), and closes the picker. |
| `ShoppingOverrides.OptionsAreCandidates` | src/components/list-products/list-shopping/shopping.utils.ts:73-83 | For a query with a non-blank text that no earlier query repeats, the options listed for its label are exactly the candidates its selection was chosen from. |
| `ShoppingOverrides.UnnamedQueryHasNoOptions` | src/components/list-products/list-shopping/shopping.utils.ts:73-83 | A blank query is labelled "Ítem sin nombre". Unless some query is literally that text, the picker finds no options for it. |
| `ShoppingOverrides.PreviousChoiceIsShown` | src/components/list-products/list-shopping/useShoppingOverrides.ts:58-69 | `applyOption` evicts the product the selection showed. The exception is a stored override naming an id that no candidate carries: then that stale id is evicted and the shown product stays. |
| `ShoppingOverrides.AppliedChoiceIsShown` | src/components/list-products/list-shopping/useShoppingOverrides.ts:71-74 | After storing a non-empty id that a candidate carries, the selection shows a product with that id. An empty pick falls back to the first candidate. |
| `ShoppingOverrides.PickLeavesOtherQueries` | src/components/list-products/list-shopping/useShoppingOverrides.ts:71-74 | A pick for one (retailer, query) leaves the choice for every other retailer or query unchanged. |
| `ShoppingOverrides.SecondApplyEvictsPick` | src/components/list-products/list-shopping/useShoppingOverrides.ts:55-77 | Re-applying the same non-empty pick leaves the overrides as they were. But the pick is now the previous choice, so it is evicted from the cart. |
| `CartStore.ClampQty` | src/store/cart.store.ts:25-27 | The result is in [0, 10]. It is the argument when that is in range, 0 below the range and 10 above it. |
| `CartStore.GetQty` | src/store/cart.store.ts:29-31 | A missing key reads as quantity 0. |
| `CartStore.AddedOne` | src/store/cart.store.ts:33-51 | Only the product's `String(id)` key changes. It holds the product at the clamped quantity plus one. On a valid cart the result is valid, and the key is present at the quantity plus one, or at 10 when already at the cap. A valid cart gains one entry exactly when the key was new. |
| `CartStore.RemovedOne` | src/store/cart.store.ts:53-70 | Only the key changes. A missing key changes nothing. Quantity 1 removes the entry; otherwise the quantity drops by one. Validity is kept. |
| `CartStore.RemovedOneSize` | src/store/cart.store.ts:53-70 | On a valid cart, `removeOne` drops an entry exactly when the key was there at quantity 1; otherwise the size is unchanged. |
| `CartStore.WithQty` | src/store/cart.store.ts:72-88 | Only the key changes. A quantity of 0 or less removes it; otherwise the product is stored at the quantity capped at 10. Validity is kept. The size drops by one when a present key is removed and grows by one when a new key is stored. |
| `CartStore.Removed` | src/store/cart.store.ts:90-96 | Only the key is removed, and the size drops by one exactly when the key was present. A missing key changes nothing. Validity is kept. |
| `CartStore.CartTotalEnumeration` | src/store/cart.store.ts:18-23 | Folding `(price ?? 0) * qty` over the entries in any enumeration order gives the same `cartTotal`. |
| `CartStore.AddOneRaisesTotal` | src/store/cart.store.ts:33-51 | Below the cap, and with the stored product being the one added, `addOne` raises `cartTotal` by exactly one unit price. |
| `CartStore.Cart.constructor` | src/store/cart.store.ts:14 | The store starts from the stored cart. |
| `CartStore.Cart.Qty` | src/store/cart.store.ts:29-31 | In a valid cart, the quantity is 0 exactly when the key is absent. |
| `CartStore.Cart.Count` | src/store/cart.store.ts:16 | `cartCount` is zero exactly when the cart is empty, and at least one whenever some key is present. |
| `CartStore.Cart.AddOne` | src/store/cart.store.ts:33-51 | The new cart is `AddedOne` of the old one, and validity is kept. On a valid cart the count grows by one exactly when the product was not in the cart. |
| `CartStore.Cart.RemoveOne` | src/store/cart.store.ts:53-70 | The new cart is `RemovedOne` of the old one, and validity is kept. On a valid cart the count drops by one exactly when the entry was at quantity 1. |
| `CartStore.Cart.SetQty` | src/store/cart.store.ts:72-88 | The new cart is `WithQty` of the old one, and validity is kept. The count drops by one when a present entry is set to 0 or less, and grows by one when a new product gets a positive quantity. |
| `CartStore.Cart.RemoveItem` | src/store/cart.store.ts:90-96 | The new cart is `Removed` of the old one, and validity is kept. The count drops by one exactly when the key was present. |
| `CartStore.Cart.ClearCart` | src/store/cart.store.ts:98-100 | The cart is empty and valid, and the count is zero. |
| `Retailers.RetailerTablesComplete` | src/types/retailers.ts:21-42 | The chain list names each of the four chains exactly once, and each chain has display data. |
| `Retailers.NormalizeRetailer` | src/types/retailers.ts:44-52 | On the lower-cased, trimmed name: "carrefour" wins, then "jumbo", then "vea". The result is DIA exactly when none of the three occurs. |
| `Retailers.NormalizeRetailerIdentity` | src/types/retailers.ts:44-52 | Each chain's own identifier classifies as that chain. |
| `Retailers.NormalizeRetailerCaseInsensitive` | src/types/retailers.ts:45-47 | Lower-casing the name first changes nothing. |
| `Retailers.NormalizeRetailerIgnoresSpaces` | src/types/retailers.ts:45-47 | Spaces around the name change nothing. |
| `RetailersStore.Without` | src/store/retailers.store.ts:10 | The value is gone, no other member changes, and the list does not grow. |
| `RetailersStore.ToggleFlips` | src/store/retailers.store.ts:7-14 | Toggling flips the membership of the value and of nothing else. |
| `RetailersStore.ToggleKeepsOrder` | src/store/retailers.store.ts:7-14 | The other retailers keep their relative order. |
| `RetailersStore.ToggleNoDuplicates` | src/store/retailers.store.ts:7-14 | A list without duplicates stays without duplicates. |
| `RetailersStore.ToggleTwice` | src/store/retailers.store.ts:7-14 | Toggling twice restores the members. It restores the list itself when the value was absent. |
| `RetailersStore.SelectedRetailers.constructor` | src/store/retailers.store.ts:4-5 | No retailer is selected and the highlight counter is 0. |
| `RetailersStore.SelectedRetailers.Toggle` | src/store/retailers.store.ts:7-14 | A present value is filtered out, and an absent one is appended. No duplicates appear. |
| `RetailersStore.SelectedRetailers.Clear` | src/store/retailers.store.ts:16-18 | The selection is empty. |
| `RetailersStore.SelectedRetailers.Set` | src/store/retailers.store.ts:13 | The selection is the given list. |
| `RetailersStore.SelectedRetailers.TriggerHighlight` | src/store/retailers.store.ts:20-24 | The highlight counter moves up by one. |
| `FormSearch.Lines` | src/components/form-search/FormSearch.tsx:30 | One line per `\n`-separated piece. |
| `FormSearch.TrimNonEmpty` | src/components/form-search/FormSearch.tsx:31-32 | Every kept line is non-empty and already trimmed, and no more lines come out than went in. |
| `FormSearch.TrimNonEmptyConcat` | src/components/form-search/FormSearch.tsx:31-32 | Trimming and filtering work line by line: the result for two lists joined is the two results joined. |
| `FormSearch.TrimNonEmptySingle` | src/components/form-search/FormSearch.tsx:31-32 | One line gives its trimmed text, or nothing when it is blank. |
| `FormSearch.ParseShoppingList` | src/components/form-search/FormSearch.tsx:28-33 | The items are non-empty and trimmed, at most one per line. |
| `FormSearch.CarriageReturnsIgnored` | src/components/form-search/FormSearch.tsx:30 | Splitting on `\r?\n` parses the same items as splitting on `\n` alone. |
| `FormSearch.ParseJoinRoundTrip` | src/components/form-search/FormSearch.tsx:28-33 | Non-empty trimmed items written one per line parse back to the same items, in order. |
| `FormSearch.ItemError` | src/components/form-search/FormSearch.tsx:47-50 | There is no error exactly when the trimmed term has at least 2 characters. |
| `FormSearch.ListError` | src/components/form-search/FormSearch.tsx:58-61 | There is no error exactly when the text parses to at least one item. |
| `FormSearch.AllRetailerNames` | src/components/form-search/FormSearch.tsx:157 | The "all" switch selects every chain's name, in the chain list's order, each once. |
| `FormSearch.SetAllRetailers` | src/components/form-search/FormSearch.tsx:155-159 | Checking selects every chain and unchecking selects none. The switch then reads as checked exactly when it was checked. |
| `FormSearch.SearchForm.constructor` | src/components/form-search/FormSearch.tsx:39-41 | The form starts in single-term mode with nothing submitted. |
| `FormSearch.SearchForm.SetMode` | src/components/form-search/FormSearch.tsx:167 | The mode is the chosen one. |
| `FormSearch.SearchForm.Submit` | src/components/form-search/FormSearch.tsx:127-149 | With no retailer, only the highlight counter moves. Otherwise the current mode's input is validated. A valid input is stored (trimmed term, or parsed list) and the other kind of search is cleared; an invalid one changes nothing. At most one kind stays submitted, and after a valid submission a search can run exactly when a retailer is selected. |
| `FormSearch.SearchForm.ResetOnEmptyRetailers` | src/components/form-search/FormSearch.tsx:82-90 | With no retailer selected, both submissions are cleared; otherwise nothing changes. After a clearing, no search can run, whichever retailers are selected next, until something is submitted again. |
| `ListProducts.ProductKeyParts` | src/components/list-products/ListProducts.tsx:18-26 | For retailer names without a colon, two cards share a key exactly when retailer and key base agree. For one retailer, products with ids share a key exactly when their ids agree. |
| `ListProducts.AllProducts` | src/components/list-products/ListProducts.tsx:31-33 | The merged list holds exactly the products of the retailers' results. |
| `ListProducts.AllProductsConcat` | src/components/list-products/ListProducts.tsx:31-33 | Flattening two lists of results joined gives the two flattenings joined. |
| `ListProducts.AllProductsSingle` | src/components/list-products/ListProducts.tsx:31-33 | One retailer's result contributes exactly its products, in order. |
| `ListProducts.BestPrice` | src/components/list-products/ListProducts.tsx:35-43 | The loop returns the lowest price in the list, or none when no product has a price. |
| `ListProducts.MinPriceUnique` | src/components/list-products/ListProducts.tsx:35-43 | The lowest price is unique. |
| `ListProducts.BestFlagIffCheapest` | src/components/list-products/ListProducts.tsx:121 | A card is flagged exactly when it has a price and no product is cheaper. |
| `ListProducts.ProductLeTotal` | src/components/list-products/ListProducts.tsx:47-64 | The comparator orders any two products one way or the other. |
| `ListProducts.ProductLeTransitive` | src/components/list-products/ListProducts.tsx:47-64 | The comparator is transitive. |
| `ListProducts.SortProducts` | src/components/list-products/ListProducts.tsx:45-66 | The sorted list is a permutation of the merged list, ordered by the comparator. |
| `ListProducts.SortedProductsPairwise` | src/components/list-products/ListProducts.tsx:45-66 | Every earlier card compares below-or-equal to every later one. |
| `ListProducts.SortedAscending` | src/components/list-products/ListProducts.tsx:47-64 | In ascending order, priced products come first by non-decreasing price, unpriced ones last, and equal prices go in name order. |
| `ListProducts.SortedDescending` | src/components/list-products/ListProducts.tsx:47-64 | In descending order, unpriced products come first, then non-increasing prices, and equal prices go in name order. |
| `ListProducts.FirstAscendingIsBest` | src/components/list-products/ListProducts.tsx:117-122 | In ascending order, the first card is flagged best whenever some product has a price. |
| `Sorting.SortBy` | src/components/cart/Cart.tsx:49 | Sorting gives a permutation, ordered whenever the comparison is total. |
| `Grouping.GroupByGroups` | src/components/cart/Cart.tsx:33-37 | Grouping gives one bucket per key in first-appearance order. Each bucket is non-empty and holds exactly its key's elements in their original order, and every element's key has a bucket. |
| `Grouping.GroupSums` | src/components/cart/Cart.tsx:41-45 | Summing per group and then over the groups gives the sum over all elements. |
| `CartView.SourceLeLaws` | src/components/cart/Cart.tsx:49 | Comparing groups by retailer name is total and transitive. |
| `CartView.Groups` | src/components/cart/Cart.tsx:39-49 | The drawer's groups are a permutation of the grouped entries, in non-decreasing retailer-name order. |
| `CartView.UnsortedPartitionsCart` | src/components/cart/Cart.tsx:33-47 | Before sorting, the groups have distinct retailers and every entry's retailer has a group. Each group holds its retailer's entries in cart order, with their units and total. |
| `CartView.GroupsPartitionCart` | src/components/cart/Cart.tsx:33-49 | The same partition holds for the sorted groups. |
| `CartView.GroupsAddUp` | src/components/cart/Cart.tsx:26-45 | The group units add up to the drawer's units, and the group totals to its total. |
| `CartView.DrawerTotalIsCartTotal` | src/components/cart/Cart.tsx:28-31 | The drawer's total is the store's `cartTotal`, in whatever order the entries are listed. |
| `CartView.UnitsPositive` | src/components/cart/Cart.tsx:26 | With every quantity at least 1, there are at least as many units as entries. |
| `CartView.EmptyStateIffNoEntries` | src/components/cart/Cart.tsx:76 | The empty state shows exactly when the cart has no entries. In a valid cart, that is also exactly when the unit count is 0. |
| `CartExport.Lines` | src/components/cart/CartExportButton.tsx:57-62 | One line per entry: name, quantity, unit price and subtotal. |
| `CartExport.SortItems` | src/components/cart/CartExportButton.tsx:65-68 | Every block keeps its place with its lines sorted. |
| `CartExport.ExportGroups` | src/components/cart/CartExportButton.tsx:65-80 | The exported blocks are a permutation of the line-sorted blocks, ordered by total from largest to smallest. |
| `CartExport.SteppedBlocks` | src/components/cart/CartExportButton.tsx:39-63 | One more entry changes the blocks by one step: either its retailer's block grows by the entry, or a new block for it is appended. |
| `CartExport.AddEntry` | src/components/cart/CartExportButton.tsx:40-62 | The loop body finds or creates the entry's block, then adds the entry's units, subtotal and line to it. |
| `CartExport.Summarize` | src/components/cart/CartExportButton.tsx:34-82 | The computation gives the cart-wide units and total and exactly the exported blocks. |
| `CartExport.UnsortedBlocks` | src/components/cart/CartExportButton.tsx:39-68 | Before the final sort, blocks have distinct retailers and every entry's retailer has one. Each block sums its retailer's entries and holds their lines, sorted by subtotal from largest to smallest. |
| `CartExport.ExportGroupsPartitionCart` | src/components/cart/CartExportButton.tsx:39-80 | The exported blocks satisfy the same partition, ordered by total from largest to smallest. |
| `CartExport.ExportSumsAddUp` | src/components/cart/CartExportButton.tsx:70-75 | The cart-wide units and total equal the sums over the exported blocks. |
| `CartExport.DisabledIffEmptyCart` | src/components/cart/CartExportButton.tsx:109 | For a valid cart, the button is disabled exactly when the cart is empty. |
| `RetailerRow.Products` | src/components/list-products/list-shopping/RetailerRow.tsx:53 | The row's products are the selection's items' products, in order. |
| `RetailerRow.AlreadyInCartCount` | src/components/list-products/list-shopping/RetailerRow.tsx:57-60 | The count is between 0 and the number of products. It equals that number exactly when every product has a non-zero cart quantity. |
| `RetailerRow.AllInCartMeansEvery` | src/components/list-products/list-shopping/RetailerRow.tsx:62 | `allInCart` holds exactly when there is a product and every product is in the cart. |
| `RetailerRow.RemovedAll` | src/components/list-products/list-shopping/RetailerRow.tsx:82 | Removing each product's key leaves exactly the other keys, unchanged. Validity is kept. |
| `RetailerRow.AddedAllFacts` | src/components/list-products/list-shopping/RetailerRow.tsx:84 | Adding one of each product to a valid cart keeps it valid, and puts every product's key in it. Every other entry stays as it was. |
| `RetailerRow.RemoveEach` | src/components/list-products/list-shopping/RetailerRow.tsx:82 | The loop of `removeItem` calls leaves `RemovedAll` of the old cart. |
| `RetailerRow.AddEach` | src/components/list-products/list-shopping/RetailerRow.tsx:84 | The loop of `addOne` calls leaves `AddedAll` of the old cart. |
| `RetailerRow.RunAction` | src/components/list-products/list-shopping/RetailerRow.tsx:72-88 | With no products, nothing changes. When all of them are in the cart, each is removed; otherwise one unit of each is added. A valid cart stays valid. |
| `RetailerRow.ClearedListLeavesNone` | src/components/list-products/list-shopping/RetailerRow.tsx:81-82 | After clearing a list that was all in the cart, none of its products is in the cart, and other entries are unchanged. |
| `RetailerRow.AddedListIsAllInCart` | src/components/list-products/list-shopping/RetailerRow.tsx:83-84 | After adding a non-empty list to a valid cart, the whole list is in the cart, so the row offers to clear it. |
| `RetailerRow.CoveredIsSelected` | src/components/list-products/list-shopping/RetailerRow.tsx:147-148 | With one query per listed item and distinct keys, the covered-items count equals the number of selected products. |
| `RetailerRow.BestBadgeShown` | src/components/list-products/list-shopping/RetailerRow.tsx:90 | The "best price" badge shows only on the best row and only when some query has a candidate at that retailer. With pairwise distinct keys this is an if-and-only-if. |
| `RetailerRow.SelectedHasCandidate` | src/components/list-products/list-shopping/RetailerRow.tsx:90 | A non-empty selection comes from a query with a candidate at the retailer. |
| `RetailerRow.CandidateIsSelected` | src/components/list-products/list-shopping/RetailerRow.tsx:90 | With pairwise distinct keys, a query with a candidate at the retailer puts an item in its selection. |

## Left out

- Rendering, styling, icons, the option picker's markup, the accordion and the combobox: they show values and do not compute them.
- Network requests (`useRetailersItemQuery`, `useRetailersListQuery`), loading and error states, and query cancellation: I/O. The search results are inputs of the model.
- `handleExport` (image capture and file download) and `formatMoney` / `toLocaleString`: I/O and locale formatting.
- Persistence of `$cart` in local storage: `CartStore.Cart.constructor` takes the stored value as a parameter.
- The `setTimeout` in `triggerRetailerHighlight`: a timer with an empty callback, which has no effect on state.
- Floating point: prices and quantities are integers. A price that is absent, `NaN` or infinite is `None`.
- `Object.values` / `Object.entries` enumeration order (insertion order, with integer-like keys first): the listing of the entries is a parameter (`keys`). Totals are proved independent of it. The order in which groups appear before sorting is modelled as first appearance.
- `Sorting.SortBy`: does not state the stability of `Array.prototype.sort`. Ties keep an order, but the model does not say which.
- `localeCompare`: modelled as the lexicographic order on code points (`StrLe`). Locale collation is not modelled.
- `toLowerCase`: maps only the ASCII letters A–Z. Unicode case mapping is not modelled.
- `ShoppingOverrides.OverrideSession.ApplyOption`: takes the cart as it is when the call starts. React's batching of the `setOverrides` / `setOpened` updates is not modelled.
- Resetting the overrides on remount: the overrides are not reset when new search data arrives. `useShoppingOverrides.ts` keeps them in a `useState` (line 18) and has no effect that clears them when `data` changes. They are reset only when the list view remounts: `FormSearch.tsx` (lines 224-236) unmounts `ListShopping`, which calls the hook (`ListShopping.tsx:38`), on a switch to single-item mode. The remount is not modelled.
- `RetailerRow.RunAction`: reads the cart from the `Cart` object it changes, where the component reads the store snapshot it rendered with. The two agree whenever the row is up to date.
- `ShoppingUtils.FindDetail`: the query argument is a string. `String(query ?? '')` for a missing query is not modelled.

