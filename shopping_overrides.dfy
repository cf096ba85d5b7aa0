/**
 * The override session of the list view: the user's picks per (retailer,
 * query), the option picker's state, the summaries and best retailer
 * derived from them, and `applyOption`, which records a pick and takes the
 * product it supersedes out of the cart.
 */
module ShoppingOverrides {
  import opened Wrappers
  import opened Strings
  import opened Catalog
  import opened CartStore
  import opened ShoppingUtils

  /** The product id in effect for (retailer, query) before a new pick: the
      stored override when it is non-empty, else the first option's id. */
  function PreviousChoice(data: ListResponse, ov: OverridesMap, retailer: string, query: string): string {
    var key := OvKey(retailer, query);
    if key in ov && ov[key] != "" then ov[key] else DefaultProductId(data, retailer, query)
  }

  /** The cart after `applyOption` evicts `prev`: removed when it is a
      non-empty id with a non-zero quantity. */
  function Evicted(cart: CartState, prev: string): (r: CartState)
    ensures forall k :: k != prev ==> (k in r <==> k in cart) && (k in r ==> r[k] == cart[k])
    ensures ValidCart(cart) && prev != "" ==> prev !in r
    ensures prev == "" ==> r == cart
    ensures ValidCart(cart) ==> ValidCart(r)
  {
    if prev != "" && GetQty(cart, prev) != 0 then Removed(cart, prev) else cart
  }

  class OverrideSession {
    var overrides: OverridesMap
    var isOpen: bool
    var activeRetailer: Option<string>
    var activeQuery: string
    var selectedOptionId: Option<string>

    /** A fresh session: no overrides, picker closed and without a target. */
    constructor ()
      ensures overrides == map[] && !isOpen
      ensures activeRetailer == None && activeQuery == "" && selectedOptionId == None
    {
      overrides := map[];
      isOpen := false;
      activeRetailer := None;
      activeQuery := "";
      selectedOptionId := None;
    }

    /** The picker has a (retailer, query) to work on. */
    predicate HasTarget()
      reads this
    {
      activeRetailer.Some? && activeRetailer.value != "" && activeQuery != ""
    }

    /** The options the picker lists. */
    function Options(data: Option<ListResponse>): (ps: seq<Product>)
      reads this
      ensures data.None? || !HasTarget() ==> ps == []
      ensures data.Some? && HasTarget() ==> ps == OptionsFor(data.value, activeRetailer.value, activeQuery)
    {
      if data.None? || !HasTarget() then [] else OptionsFor(data.value, activeRetailer.value, activeQuery)
    }

    /** `uiSummaries`: nothing without data, else one summary per ranked retailer. */
    method UiSummaries(data: Option<ListResponse>) returns (m: map<string, Summary>)
      ensures data.None? ==> m == map[]
      ensures data.Some? ==> m == SummariesOf(data.value, overrides)
    {
      if data.None? {
        return map[];
      }
      m := ComputeUiSummaries(data.value, overrides);
    }

    /** `uiBestRetailer`: nothing without data, else the first ranked
        retailer with the fewest missing queries and then the lowest total. */
    method UiBestRetailer(data: Option<ListResponse>) returns (best: Option<string>)
      ensures data.None? ==> best == None
      ensures data.Some? ==> (best.None? <==> data.value.ranking == [])
      ensures data.Some? && best.Some? ==>
                exists i :: 0 <= i < |data.value.ranking| && data.value.ranking[i] == best.value
                            && IsFirstBest(data.value, SummariesOf(data.value, overrides), i)
    {
      if data.None? {
        return None;
      }
      var summaries := UiSummaries(data);
      best := ComputeUiBestRetailer(data.value, summaries);
    }

    /** Opens the picker on (retailer, query), highlighting `current`. */
    method OpenOptions(retailer: string, query: string, current: Product)
      modifies this
      ensures activeRetailer == Some(retailer) && activeQuery == query
      ensures selectedOptionId == Some(IdOrEmpty(current)) && isOpen
      ensures overrides == old(overrides)
    {
      activeRetailer := Some(retailer);
      activeQuery := query;
      selectedOptionId := Some(IdOrEmpty(current));
      isOpen := true;
    }

    method SetSelectedOptionId(id: Option<string>)
      modifies this
      ensures selectedOptionId == id
      ensures overrides == old(overrides) && isOpen == old(isOpen)
      ensures activeRetailer == old(activeRetailer) && activeQuery == old(activeQuery)
    {
      selectedOptionId := id;
    }

    /** Closes the picker; the overrides stay as they are. */
    method Close()
      modifies this
      ensures !isOpen && overrides == old(overrides) && selectedOptionId == old(selectedOptionId)
      ensures activeRetailer == old(activeRetailer) && activeQuery == old(activeQuery)
    {
      isOpen := false;
    }

    /** Records the highlighted option as the pick for the active (retailer,
        query), after removing the previously effective product from the
        cart, and closes the picker. Without data or target it does nothing. */
    method ApplyOption(data: Option<ListResponse>, cart: Cart)
      modifies this, cart
      ensures data.None? || !old(HasTarget()) ==>
                overrides == old(overrides) && isOpen == old(isOpen) && cart.items == old(cart.items)
      ensures activeRetailer == old(activeRetailer) && activeQuery == old(activeQuery)
      ensures selectedOptionId == old(selectedOptionId)
      ensures data.Some? && old(HasTarget()) ==>
                var key := OvKey(activeRetailer.value, activeQuery);
                && overrides == old(overrides)[key := selectedOptionId.GetOr("")]
                && !isOpen
                && cart.items == Evicted(old(cart.items),
                                         PreviousChoice(data.value, old(overrides), activeRetailer.value, activeQuery))
    {
      if data.None? || !HasTarget() {
        return;
      }
      var retailer := activeRetailer.value;
      var key := OvKey(retailer, activeQuery);
      var prev := PreviousChoice(data.value, overrides, retailer, activeQuery);
      if prev != "" && cart.Qty(prev) != 0 {
        cart.RemoveItem(prev);
      }
      overrides := overrides[key := selectedOptionId.GetOr("")];
      isOpen := false;
    }
  }

  /** The picker opened on an item of a selection lists exactly the
      candidates that item was chosen from, provided its query text is not
      blank and no earlier query has the same trimmed text. */
  lemma OptionsAreCandidates(data: ListResponse, r: string, j: int)
    requires 0 <= j < |data.detail|
    requires Trim(data.detail[j].query.GetOr("")) != ""
    requires forall i :: 0 <= i < j ==>
               Trim(data.detail[i].query.GetOr("")) != Trim(data.detail[j].query.GetOr(""))
    ensures OptionsFor(data, r, QueryLabel(data.detail[j])) == ProductsOf(data.detail[j].results, r)
  {
    TrimIdempotent(data.detail[j].query.GetOr(""));
  }

  /** A blank query is labelled `UNNAMED_ITEM`, and unless some query's
      text is literally that label, the picker has no options for it. */
  lemma UnnamedQueryHasNoOptions(data: ListResponse, r: string)
    requires forall k :: 0 <= k < |data.detail| ==> Trim(data.detail[k].query.GetOr("")) != UNNAMED_ITEM
    ensures OptionsFor(data, r, UNNAMED_ITEM) == []
  {
    TrimmedIsFixed(UNNAMED_ITEM);
  }

  /** The product `applyOption` evicts is the one the selection showed,
      unless the stored override names an id no candidate carries: then
      the stale id is evicted and the shown product stays in the cart. */
  lemma PreviousChoiceIsShown(data: ListResponse, r: string, ov: OverridesMap, j: int)
    requires 0 <= j < |data.detail|
    requires Trim(data.detail[j].query.GetOr("")) != ""
    requires forall i :: 0 <= i < j ==>
               Trim(data.detail[i].query.GetOr("")) != Trim(data.detail[j].query.GetOr(""))
    requires ProductsOf(data.detail[j].results, r) != []
    ensures var q := QueryLabel(data.detail[j]);
            var key := OvKey(r, q);
            var ps := ProductsOf(data.detail[j].results, r);
            (key !in ov || ov[key] == "" || exists k :: 0 <= k < |ps| && IdOrEmpty(ps[k]) == ov[key])
            ==> PreviousChoice(data, ov, r, q) == IdOrEmpty(ChosenFor(data.detail[j], r, ov).value)
    ensures var q := QueryLabel(data.detail[j]);
            var key := OvKey(r, q);
            var ps := ProductsOf(data.detail[j].results, r);
            (key in ov && ov[key] != "" && forall k :: 0 <= k < |ps| ==> IdOrEmpty(ps[k]) != ov[key])
            ==> PreviousChoice(data, ov, r, q) == ov[key]
                && PreviousChoice(data, ov, r, q) != IdOrEmpty(ChosenFor(data.detail[j], r, ov).value)
  {
    OptionsAreCandidates(data, r, j);
    var q := QueryLabel(data.detail[j]);
    var key := OvKey(r, q);
    var ps := ProductsOf(data.detail[j].results, r);
    if key in ov && ov[key] != "" {
      var f := FindById(ps, ov[key]);
      if f.Some? {
        assert ChosenFor(data.detail[j], r, ov) == Some(ps[f.value]);
      }
    }
  }

  /** Once a non-empty id that some candidate carries is recorded for a
      query, the selection shows a product with that id; an empty pick
      falls back to the first candidate. */
  lemma AppliedChoiceIsShown(d: QueryDetail, r: string, ov: OverridesMap, s: string)
    requires ProductsOf(d.results, r) != []
    ensures var ps := ProductsOf(d.results, r);
            (s != "" && exists k :: 0 <= k < |ps| && IdOrEmpty(ps[k]) == s)
            ==> IdOrEmpty(ChosenFor(d, r, ov[OvKey(r, QueryLabel(d)) := s]).value) == s
    ensures s == "" ==> ChosenFor(d, r, ov[OvKey(r, QueryLabel(d)) := s]) == Some(ProductsOf(d.results, r)[0])
  {
    var ps := ProductsOf(d.results, r);
    var ov' := ov[OvKey(r, QueryLabel(d)) := s];
    assert Lookup(ov', OvKey(r, QueryLabel(d))) == Some(s);
    if s != "" {
      var f := FindById(ps, s);
      if f.Some? {
        assert ChosenFor(d, r, ov') == Some(ps[f.value]);
      }
    }
  }

  /** A pick for (r, q) changes nothing for any other retailer or query
      (retailer names carry no colon). */
  lemma PickLeavesOtherQueries(d: QueryDetail, r': string, r: string, q: string, ov: OverridesMap, s: string)
    requires ':' !in r && ':' !in r'
    requires r != r' || QueryLabel(d) != q
    ensures ChosenFor(d, r', ov[OvKey(r, q) := s]) == ChosenFor(d, r', ov)
  {
    if OvKey(r', QueryLabel(d)) == OvKey(r, q) {
      OvKeyInjective(r', QueryLabel(d), r, q);
    }
  }

  /** Applying the same non-empty pick a second time leaves the overrides
      as they were, but the pick itself is now the previous choice, so the
      second call evicts it from the cart when it is there. */
  lemma SecondApplyEvictsPick(data: ListResponse, ov: OverridesMap, cart: CartState, r: string, q: string, s: string)
    requires s != "" && ValidCart(cart) && s in cart
    ensures var ov' := ov[OvKey(r, q) := s];
            && ov'[OvKey(r, q) := s] == ov'
            && PreviousChoice(data, ov', r, q) == s
            && s !in Evicted(cart, PreviousChoice(data, ov', r, q))
  {
  }
}
