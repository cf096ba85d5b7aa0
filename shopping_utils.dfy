/**
 * The client-side selection engine of a shopping-list search: for one
 * retailer, which product stands for each query of the list (the
 * retailer's first candidate, or the one the user picked instead), which
 * queries have no candidate, and what the chosen products cost; then one
 * summary per ranked retailer and the best retailer among them.
 */
module ShoppingUtils {
  import opened Wrappers
  import opened Strings
  import opened Catalog
  import opened Sorting
  import Grouping

  /** The user's picks: override key to product id. */
  type OverridesMap = map<string, string>

  datatype SelectedItem = SelectedItem(query: string, product: Product)

  datatype RetailerSelection = RetailerSelection(
    items: seq<SelectedItem>,
    missing: seq<string>,
    total: int)

  /** What the list view shows per retailer: total and number of missing queries. */
  datatype Summary = Summary(total: int, missing: int)

  /** The label of a query whose text is blank. */
  const UNNAMED_ITEM: string := "\U{CD}tem sin nombre"

  /** The key an override is filed under: `retailer::query`. */
  function OvKey(retailer: string, query: string): string {
    retailer + "::" + query
  }

  /** Retailer names carry no colon, so an override key names exactly one
      retailer and one query. */
  lemma OvKeyInjective(r1: string, q1: string, r2: string, q2: string)
    requires ':' !in r1 && ':' !in r2
    requires OvKey(r1, q1) == OvKey(r2, q2)
    ensures r1 == r2 && q1 == q2
  {
    assert OvKey(r1, q1) == r1 + [':'] + (":" + q1);
    assert OvKey(r2, q2) == r2 + [':'] + (":" + q2);
    SeparatorSplits(r1, ":" + q1, r2, ":" + q2, ':');
    assert q1 == (":" + q1)[1..] && q2 == (":" + q2)[1..];
  }

  /** `overrides[key]`: the stored id, or nothing. */
  function Lookup(ov: OverridesMap, key: string): (r: Option<string>)
    ensures r.Some? <==> key in ov
    ensures r.Some? ==> r.value == ov[key]
  {
    if key in ov then Some(ov[key]) else None
  }

  /** The product a query resolves to: none without candidates; the first
      candidate whose id matches a non-empty chosen id; else the first. */
  function PickChosenProduct(products: seq<Product>, chosenId: Option<string>): (r: Option<Product>)
    ensures r.None? <==> products == []
    ensures forall k ::
              (0 <= k < |products| && chosenId.Some? && chosenId.value != ""
               && IdOrEmpty(products[k]) == chosenId.value
               && (forall j :: 0 <= j < k ==> IdOrEmpty(products[j]) != chosenId.value))
              ==> r == Some(products[k])
    ensures products != []
      && (chosenId.None? || chosenId.value == ""
          || forall j :: 0 <= j < |products| ==> IdOrEmpty(products[j]) != chosenId.value)
      ==> r == Some(products[0])
  {
    if products == [] then None
    else if chosenId.Some? && chosenId.value != "" then
      match FindById(products, chosenId.value)
      case Some(k) => Some(products[k])
      case None => Some(products[0])
    else Some(products[0])
  }

  /** `products.find(p => String(p.id ?? '') === id)`, as an index. */
  function FindById(products: seq<Product>, id: string): (r: Option<nat>)
    ensures r.Some? ==>
              (r.value < |products| && IdOrEmpty(products[r.value]) == id
               && forall j :: 0 <= j < r.value ==> IdOrEmpty(products[j]) != id)
    ensures r.None? ==> forall j :: 0 <= j < |products| ==> IdOrEmpty(products[j]) != id
  {
    if products == [] then None
    else if IdOrEmpty(products[0]) == id then Some(0)
    else match FindById(products[1..], id)
      case None => None
      case Some(k) => Some(k + 1)
  }

  /** `results.find(x => x.retailer === retailer)?.products ?? []`. */
  function ProductsOf(results: seq<RetailerResult>, retailer: string): (ps: seq<Product>)
    ensures forall k ::
              (0 <= k < |results| && results[k].retailer == retailer
               && (forall j :: 0 <= j < k ==> results[j].retailer != retailer))
              ==> ps == results[k].products
    ensures (forall k :: 0 <= k < |results| ==> results[k].retailer != retailer) ==> ps == []
  {
    if results == [] then []
    else if results[0].retailer == retailer then results[0].products
    else ProductsOf(results[1..], retailer)
  }

  /** The label of a query: its trimmed text, or `UNNAMED_ITEM` when blank. */
  function QueryLabel(d: QueryDetail): (r: string)
    ensures r != "" && Trimmed(r)
    ensures Trim(d.query.GetOr("")) != "" ==> r == Trim(d.query.GetOr(""))
  {
    var t := Trim(d.query.GetOr(""));
    if t == "" then UNNAMED_ITEM else t
  }

  /** The product the selection takes for a query at a retailer. */
  function ChosenFor(d: QueryDetail, retailer: string, ov: OverridesMap): Option<Product> {
    PickChosenProduct(ProductsOf(d.results, retailer), Lookup(ov, OvKey(retailer, QueryLabel(d))))
  }

  /** The identity a chosen product is deduplicated by: its id, or
      `retailer-name-price` when it has none. */
  function DedupeId(p: Product): string {
    match p.id
    case Some(i) => i
    case None => RetailerText(p) + "-" + p.name + "-" + PriceText(p.price)
  }

  /** The value a query adds to the single `seen` set of the pass: its
      chosen product's dedupe id, or its label when nothing was chosen. */
  function EntryKey(d: QueryDetail, retailer: string, ov: OverridesMap): string {
    match ChosenFor(d, retailer, ov)
    case None => QueryLabel(d)
    case Some(p) => DedupeId(p)
  }

  /** The state of the selection pass after some queries. */
  datatype Pass = Pass(items: seq<SelectedItem>, missing: seq<string>, seen: set<string>)

  /** One iteration of the pass over the query `d`. */
  function Step(st: Pass, d: QueryDetail, retailer: string, ov: OverridesMap): Pass {
    var query := QueryLabel(d);
    match ChosenFor(d, retailer, ov)
    case None =>
      if query in st.seen then st
      else Pass(st.items, st.missing + [query], st.seen + {query})
    case Some(p) =>
      if DedupeId(p) in st.seen then st
      else Pass(st.items + [SelectedItem(query, p)], st.missing, st.seen + {DedupeId(p)})
  }

  /** The pass over a whole sequence of queries, in order. */
  function Run(detail: seq<QueryDetail>, retailer: string, ov: OverridesMap): Pass {
    if detail == [] then Pass([], [], {})
    else Step(Run(detail[..|detail| - 1], retailer, ov), detail[|detail| - 1], retailer, ov)
  }

  function ItemPrice(x: SelectedItem): int {
    PriceOrZero(x.product)
  }

  /** What the selection for `retailer` is: the pass's items and missing
      queries and the sum of the items' prices (absent prices count 0). */
  function Selection(data: ListResponse, retailer: string, ov: OverridesMap): RetailerSelection {
    var p := Run(data.detail, retailer, ov);
    RetailerSelection(p.items, p.missing, SumBy(p.items, ItemPrice))
  }

  /** The pass over one more query is one more step. */
  lemma RunPrefixStep(detail: seq<QueryDetail>, i: int, retailer: string, ov: OverridesMap)
    requires 0 <= i < |detail|
    ensures Run(detail[..i + 1], retailer, ov) == Step(Run(detail[..i], retailer, ov), detail[i], retailer, ov)
  {
    assert detail[..i + 1][..i] == detail[..i];
  }

  method BuildRetailerSelection(data: ListResponse, retailer: string, ov: OverridesMap)
    returns (sel: RetailerSelection)
    ensures sel == Selection(data, retailer, ov)
  {
    var items: seq<SelectedItem> := [];
    var missing: seq<string> := [];
    var seen: set<string> := {};
    for i := 0 to |data.detail|
      invariant Pass(items, missing, seen) == Run(data.detail[..i], retailer, ov)
    {
      RunPrefixStep(data.detail, i, retailer, ov);
      var d := data.detail[i];
      var query := QueryLabel(d);
      var products := ProductsOf(d.results, retailer);
      var chosenId := Lookup(ov, OvKey(retailer, query));
      var chosen := PickChosenProduct(products, chosenId);
      if chosen.None? {
        if query !in seen {
          seen := seen + {query};
          missing := missing + [query];
        }
        continue;
      }
      var dedupeId := DedupeId(chosen.value);
      if dedupeId in seen {
        continue;
      }
      seen := seen + {dedupeId};
      items := items + [SelectedItem(query, chosen.value)];
    }
    assert data.detail[..|data.detail|] == data.detail;
    var total := SumBy(items, ItemPrice);
    sel := RetailerSelection(items, missing, total);
  }

  /** The trimmed text of a query. */
  function QueryText(d: QueryDetail): string {
    Trim(d.query.GetOr(""))
  }

  /** The first query whose trimmed text equals the trimmed `query`. */
  function FindDetail(detail: seq<QueryDetail>, query: string): (r: Option<QueryDetail>)
    ensures forall k ::
              (0 <= k < |detail| && QueryText(detail[k]) == Trim(query)
               && (forall j :: 0 <= j < k ==> QueryText(detail[j]) != Trim(query)))
              ==> r == Some(detail[k])
    ensures (forall k :: 0 <= k < |detail| ==> QueryText(detail[k]) != Trim(query)) ==> r.None?
  {
    match Grouping.IndexOf(detail, QueryText, Trim(query))
    case None => None
    case Some(k) => Some(detail[k])
  }

  /** The candidates the option picker offers for a query at a retailer. */
  function OptionsFor(data: ListResponse, retailer: string, query: string): seq<Product> {
    match FindDetail(data.detail, query)
    case None => []
    case Some(d) => ProductsOf(d.results, retailer)
  }

  /** The id of the first option, or the empty string. */
  function DefaultProductId(data: ListResponse, retailer: string, query: string): (id: string)
    ensures OptionsFor(data, retailer, query) == [] ==> id == ""
    ensures OptionsFor(data, retailer, query) != [] ==>
      id == IdOrEmpty(OptionsFor(data, retailer, query)[0])
  {
    var options := OptionsFor(data, retailer, query);
    if options == [] then "" else IdOrEmpty(options[0])
  }

  function SummaryOf(sel: RetailerSelection): Summary {
    Summary(sel.total, |sel.missing|)
  }

  /** The summaries of all ranked retailers. */
  function SummariesOf(data: ListResponse, ov: OverridesMap): map<string, Summary> {
    map r | r in data.ranking :: SummaryOf(Selection(data, r, ov))
  }

  /** One summary per ranked retailer, each that of its selection. */
  method ComputeUiSummaries(data: ListResponse, ov: OverridesMap) returns (m: map<string, Summary>)
    ensures forall r :: r in m <==> r in data.ranking
    ensures forall r :: r in m ==> m[r] == SummaryOf(Selection(data, r, ov))
    ensures m == SummariesOf(data, ov)
  {
    m := map[];
    for i := 0 to |data.ranking|
      invariant forall r :: r in m <==> r in data.ranking[..i]
      invariant forall r :: r in m ==> m[r] == SummaryOf(Selection(data, r, ov))
    {
      assert data.ranking[..i + 1] == data.ranking[..i] + [data.ranking[i]];
      var retailer := data.ranking[i];
      var sel := BuildRetailerSelection(data, retailer, ov);
      m := m[retailer := Summary(sel.total, |sel.missing|)];
    }
    assert data.ranking[..|data.ranking|] == data.ranking;
  }

  /** A ranked retailer's summary, or "everything missing, nothing spent"
      when the map has none for it. */
  function SummaryAt(data: ListResponse, summaries: map<string, Summary>, r: string): Summary {
    if r in summaries then summaries[r] else Summary(0, |data.items|)
  }

  /** Fewer missing queries, or as many and a lower total. */
  predicate Better(a: Summary, b: Summary) {
    a.missing < b.missing || (a.missing == b.missing && a.total < b.total)
  }

  /** Position `i` of the ranking holds the first retailer no other one
      beats: nobody is better, and everyone before it is worse. */
  predicate IsFirstBest(data: ListResponse, summaries: map<string, Summary>, i: int)
    requires 0 <= i < |data.ranking|
  {
    (forall j :: 0 <= j < |data.ranking| ==>
      !Better(SummaryAt(data, summaries, data.ranking[j]), SummaryAt(data, summaries, data.ranking[i])))
    && (forall j :: 0 <= j < i ==>
      Better(SummaryAt(data, summaries, data.ranking[i]), SummaryAt(data, summaries, data.ranking[j])))
  }

  /** The retailer the list view marks best, or none when nothing is ranked. */
  method ComputeUiBestRetailer(data: ListResponse, summaries: map<string, Summary>)
    returns (best: Option<string>)
    ensures best.None? <==> data.ranking == []
    ensures best.Some? ==>
              exists i :: 0 <= i < |data.ranking| && data.ranking[i] == best.value
                          && IsFirstBest(data, summaries, i)
  {
    if |data.ranking| == 0 {
      return None;
    }
    var b := 0;
    var bs := SummaryAt(data, summaries, data.ranking[0]);
    for i := 1 to |data.ranking|
      invariant 0 <= b < i
      invariant bs == SummaryAt(data, summaries, data.ranking[b])
      invariant forall j :: 0 <= j < i ==> !Better(SummaryAt(data, summaries, data.ranking[j]), bs)
      invariant forall j :: 0 <= j < b ==> Better(bs, SummaryAt(data, summaries, data.ranking[j]))
    {
      var s := SummaryAt(data, summaries, data.ranking[i]);
      if s.missing < bs.missing {
        b, bs := i, s;
      } else if s.missing == bs.missing && s.total < bs.total {
        b, bs := i, s;
      }
    }
    best := Some(data.ranking[b]);
    assert IsFirstBest(data, summaries, b);
  }
}
