/**
 * What the selection pass computes, stated without its running `seen` set:
 * each query contributes exactly when its key (chosen product's dedupe id,
 * or its label when nothing was chosen) has not occurred at an earlier
 * query. From that follow the absence of duplicates, where every item and
 * missing label comes from, and when every query is accounted for.
 */
module SelectionFacts {
  import opened Wrappers
  import opened Strings
  import opened Catalog
  import opened ShoppingUtils

  /** The key of a query at retailer `r` under overrides `ov`. */
  function KeyOf(r: string, ov: OverridesMap): QueryDetail -> string {
    d => EntryKey(d, r, ov)
  }

  /** The keys of all the given queries. */
  function Image(detail: seq<QueryDetail>, key: QueryDetail -> string): set<string> {
    set j | 0 <= j < |detail| :: key(detail[j])
  }

  /** No earlier query has the same key as query `j`. */
  predicate FirstAt(detail: seq<QueryDetail>, j: int, key: QueryDetail -> string)
    requires 0 <= j < |detail|
  {
    forall i :: 0 <= i < j ==> key(detail[i]) != key(detail[j])
  }

  predicate FirstKeyAt(detail: seq<QueryDetail>, j: int, r: string, ov: OverridesMap)
    requires 0 <= j < |detail|
  {
    FirstAt(detail, j, KeyOf(r, ov))
  }

  lemma ImageSnoc(detail: seq<QueryDetail>, key: QueryDetail -> string)
    requires detail != []
    ensures Image(detail, key) == Image(detail[..|detail| - 1], key) + {key(detail[|detail| - 1])}
  {
    var n := |detail| - 1;
    var pre := detail[..n];
    forall k | k in Image(detail, key)
      ensures k in Image(pre, key) + {key(detail[n])}
    {
      var j :| 0 <= j < |detail| && key(detail[j]) == k;
      if j < n {
        assert pre[j] == detail[j];
      }
    }
    forall k | k in Image(pre, key)
      ensures k in Image(detail, key)
    {
      var j :| 0 <= j < n && key(pre[j]) == k;
      assert pre[j] == detail[j];
    }
  }

  /** Whether a key is new at `j` does not depend on the queries after `j`. */
  lemma FirstAtPrefix(detail: seq<QueryDetail>, n: int, key: QueryDetail -> string)
    requires 0 <= n <= |detail|
    ensures forall j :: 0 <= j < n ==> (FirstAt(detail[..n], j, key) <==> FirstAt(detail, j, key))
  {
    assert forall j :: 0 <= j < n ==> detail[..n][j] == detail[j];
  }

  /** The key of the last query is among the earlier keys exactly when it is not new. */
  lemma LastKeySeen(detail: seq<QueryDetail>, key: QueryDetail -> string)
    requires detail != []
    ensures key(detail[|detail| - 1]) in Image(detail[..|detail| - 1], key)
            <==> !FirstAt(detail, |detail| - 1, key)
  {
    var n := |detail| - 1;
    assert forall j :: 0 <= j < n ==> detail[..n][j] == detail[j];
  }

  /** The item a query contributes when its key is new: its label with
      the chosen product, if there is one. */
  function ItemPick(r: string, ov: OverridesMap): QueryDetail -> Option<SelectedItem> {
    d => match ChosenFor(d, r, ov)
         case Some(p) => Some(SelectedItem(QueryLabel(d), p))
         case None => None
  }

  /** The missing label a query contributes when its key is new: its
      label, if nothing was chosen. */
  function MissingPick(r: string, ov: OverridesMap): QueryDetail -> Option<string> {
    d => if ChosenFor(d, r, ov).None? then Some(QueryLabel(d)) else None
  }

  /** Reference definition: in query order, what `pick` gives for each
      query whose `key` occurs there first. */
  function Collect<U>(detail: seq<QueryDetail>, key: QueryDetail -> string,
                      pick: QueryDetail -> Option<U>): seq<U> {
    if detail == [] then []
    else
      var n := |detail| - 1;
      var rest := Collect(detail[..n], key, pick);
      if pick(detail[n]).Some? && FirstAt(detail, n, key) then rest + [pick(detail[n]).value] else rest
  }

  /** What the reference collects, in both directions. */
  lemma {:induction false} CollectMembers<U>(detail: seq<QueryDetail>, key: QueryDetail -> string,
                                            pick: QueryDetail -> Option<U>)
    ensures forall j :: 0 <= j < |detail| && pick(detail[j]).Some? && FirstAt(detail, j, key)
              ==> pick(detail[j]).value in Collect(detail, key, pick)
    ensures forall x :: x in Collect(detail, key, pick) ==>
              exists j :: 0 <= j < |detail| && pick(detail[j]).Some? && FirstAt(detail, j, key)
                          && x == pick(detail[j]).value
    decreases |detail|
  {
    if detail != [] {
      var n := |detail| - 1;
      var pre := detail[..n];
      CollectMembers(pre, key, pick);
      FirstAtPrefix(detail, n, key);
      var rest := Collect(pre, key, pick);
      var all := Collect(detail, key, pick);
      assert forall x :: x in rest ==> x in all;
      forall j | 0 <= j < |detail| && pick(detail[j]).Some? && FirstAt(detail, j, key)
        ensures pick(detail[j]).value in all
      {
        if j < n {
          assert pre[j] == detail[j];
        }
      }
      forall x | x in all
        ensures exists j :: 0 <= j < |detail| && pick(detail[j]).Some? && FirstAt(detail, j, key)
                            && x == pick(detail[j]).value
      {
        if x in rest {
          var j :| 0 <= j < n && pick(pre[j]).Some? && FirstAt(pre, j, key) && x == pick(pre[j]).value;
          assert pre[j] == detail[j];
        }
      }
    }
  }

  /** With pairwise distinct keys, and exactly one of two picks defined on
      every query, the two collections together have one entry per query. */
  lemma {:induction false} CollectLengths<U, V>(detail: seq<QueryDetail>, key: QueryDetail -> string,
                                               pickA: QueryDetail -> Option<U>, pickB: QueryDetail -> Option<V>)
    requires forall i, j :: 0 <= i < j < |detail| ==> key(detail[i]) != key(detail[j])
    requires forall j :: 0 <= j < |detail| ==> (pickA(detail[j]).Some? <==> pickB(detail[j]).None?)
    ensures |Collect(detail, key, pickA)| + |Collect(detail, key, pickB)| == |detail|
    decreases |detail|
  {
    if detail != [] {
      var n := |detail| - 1;
      var pre := detail[..n];
      assert forall j :: 0 <= j < n ==> pre[j] == detail[j];
      CollectLengths(pre, key, pickA, pickB);
      assert FirstAt(detail, n, key);
    }
  }

  predicate NoDup<T(==)>(s: seq<T>) {
    forall i, j :: 0 <= i < j < |s| ==> s[i] != s[j]
  }

  function Elems(s: seq<string>): set<string> {
    set x | x in s
  }

  function DedupeIds(items: seq<SelectedItem>): set<string> {
    set x | x in items :: DedupeId(x.product)
  }

  /** No two items share a dedupe id. */
  predicate DistinctProducts(items: seq<SelectedItem>) {
    forall i, j :: 0 <= i < j < |items| ==> DedupeId(items[i].product) != DedupeId(items[j].product)
  }

  /** The invariant of the pass: `seen` holds exactly the missing labels
      and the items' dedupe ids, and none of these repeats. */
  predicate WellFormed(p: Pass) {
    && p.seen == Elems(p.missing) + DedupeIds(p.items)
    && NoDup(p.missing)
    && DistinctProducts(p.items)
    && Elems(p.missing) !! DedupeIds(p.items)
  }

  lemma AddMissingWellFormed(st: Pass, q: string)
    requires WellFormed(st) && q !in st.seen
    ensures WellFormed(Pass(st.items, st.missing + [q], st.seen + {q}))
  {
    assert Elems(st.missing + [q]) == Elems(st.missing) + {q};
  }

  lemma AddItemWellFormed(st: Pass, x: SelectedItem)
    requires WellFormed(st) && DedupeId(x.product) !in st.seen
    ensures WellFormed(Pass(st.items + [x], st.missing, st.seen + {DedupeId(x.product)}))
  {
    assert DedupeIds(st.items + [x]) == DedupeIds(st.items) + {DedupeId(x.product)};
    assert forall i :: 0 <= i < |st.items| ==> DedupeId(st.items[i].product) in DedupeIds(st.items);
  }

  lemma StepWellFormed(st: Pass, d: QueryDetail, r: string, ov: OverridesMap)
    requires WellFormed(st)
    ensures WellFormed(Step(st, d, r, ov))
    ensures |Step(st, d, r, ov).items| + |Step(st, d, r, ov).missing| <= |st.items| + |st.missing| + 1
  {
    var q := QueryLabel(d);
    match ChosenFor(d, r, ov)
    case None =>
      if q !in st.seen {
        AddMissingWellFormed(st, q);
      }
    case Some(p) =>
      if DedupeId(p) !in st.seen {
        AddItemWellFormed(st, SelectedItem(q, p));
      }
  }

  /** The pass keeps its invariant, and each query adds at most one entry. */
  lemma {:induction false} RunWellFormed(detail: seq<QueryDetail>, r: string, ov: OverridesMap)
    ensures WellFormed(Run(detail, r, ov))
    ensures |Run(detail, r, ov).items| + |Run(detail, r, ov).missing| <= |detail|
    decreases |detail|
  {
    if detail != [] {
      var n := |detail| - 1;
      RunWellFormed(detail[..n], r, ov);
      StepWellFormed(Run(detail[..n], r, ov), detail[n], r, ov);
    }
  }

  /** One iteration adds the query's key to `seen`: when it skips the
      query, the key was there already. */
  lemma StepSeen(st: Pass, d: QueryDetail, r: string, ov: OverridesMap)
    ensures Step(st, d, r, ov).seen == st.seen + {KeyOf(r, ov)(d)}
  {
  }

  /** After the pass, `seen` is the set of keys of all queries. */
  lemma {:induction false} RunSeenIsKeys(detail: seq<QueryDetail>, r: string, ov: OverridesMap)
    ensures Run(detail, r, ov).seen == Image(detail, KeyOf(r, ov))
    decreases |detail|
  {
    if detail != [] {
      var n := |detail| - 1;
      RunSeenIsKeys(detail[..n], r, ov);
      StepSeen(Run(detail[..n], r, ov), detail[n], r, ov);
      ImageSnoc(detail, KeyOf(r, ov));
    }
  }

  /** The pass computes the reference definitions: its items and missing
      labels are what the queries with a new key contribute. */
  lemma {:induction false} RunMatchesFirstKeys(detail: seq<QueryDetail>, r: string, ov: OverridesMap)
    ensures Run(detail, r, ov).items == Collect(detail, KeyOf(r, ov), ItemPick(r, ov))
    ensures Run(detail, r, ov).missing == Collect(detail, KeyOf(r, ov), MissingPick(r, ov))
    decreases |detail|
  {
    if detail != [] {
      var n := |detail| - 1;
      RunMatchesFirstKeys(detail[..n], r, ov);
      RunSeenIsKeys(detail[..n], r, ov);
      LastKeySeen(detail, KeyOf(r, ov));
    }
  }

  /** A query gives an item exactly when something was chosen for it. */
  lemma ItemPickIsChosen(detail: seq<QueryDetail>, r: string, ov: OverridesMap)
    ensures forall j :: 0 <= j < |detail| ==>
              (ItemPick(r, ov)(detail[j]).Some? <==> ChosenFor(detail[j], r, ov).Some?)
              && (ChosenFor(detail[j], r, ov).Some? ==>
                    ItemPick(r, ov)(detail[j]).value == SelectedItem(QueryLabel(detail[j]), ChosenFor(detail[j], r, ov).value))
  {
  }

  /** A query gives a missing label exactly when it has no candidate. */
  lemma MissingPickIsEmpty(detail: seq<QueryDetail>, r: string, ov: OverridesMap)
    ensures forall j :: 0 <= j < |detail| ==>
              (MissingPick(r, ov)(detail[j]).Some? <==> ProductsOf(detail[j].results, r) == [])
              && (MissingPick(r, ov)(detail[j]).Some? ==> MissingPick(r, ov)(detail[j]).value == QueryLabel(detail[j]))
  {
  }

  /** Each query with a chosen product whose key is new contributes its item. */
  lemma SelectionItemsIncluded(data: ListResponse, r: string, ov: OverridesMap)
    ensures forall j :: 0 <= j < |data.detail| && ChosenFor(data.detail[j], r, ov).Some?
              && FirstKeyAt(data.detail, j, r, ov)
              ==> SelectedItem(QueryLabel(data.detail[j]), ChosenFor(data.detail[j], r, ov).value)
                  in Selection(data, r, ov).items
  {
    RunMatchesFirstKeys(data.detail, r, ov);
    CollectMembers(data.detail, KeyOf(r, ov), ItemPick(r, ov));
    ItemPickIsChosen(data.detail, r, ov);
  }

  /** Every item of a selection is a query's label with the product chosen
      for it, at a query whose key is new. */
  lemma SelectionItemsSourced(data: ListResponse, r: string, ov: OverridesMap)
    ensures forall x :: x in Selection(data, r, ov).items ==>
              exists j :: 0 <= j < |data.detail| && ChosenFor(data.detail[j], r, ov).Some?
                          && FirstKeyAt(data.detail, j, r, ov)
                          && x == SelectedItem(QueryLabel(data.detail[j]), ChosenFor(data.detail[j], r, ov).value)
  {
    var detail := data.detail;
    var pick := ItemPick(r, ov);
    RunMatchesFirstKeys(detail, r, ov);
    CollectMembers(detail, KeyOf(r, ov), pick);
    ItemPickIsChosen(detail, r, ov);
    forall x | x in Selection(data, r, ov).items
      ensures exists j :: 0 <= j < |detail| && ChosenFor(detail[j], r, ov).Some?
                          && FirstKeyAt(detail, j, r, ov)
                          && x == SelectedItem(QueryLabel(detail[j]), ChosenFor(detail[j], r, ov).value)
    {
      var j :| 0 <= j < |detail| && pick(detail[j]).Some? && FirstAt(detail, j, KeyOf(r, ov))
               && x == pick(detail[j]).value;
      assert FirstKeyAt(detail, j, r, ov);
    }
  }

  /** Each query with no candidate at the retailer whose key is new
      contributes its label to the missing list. */
  lemma SelectionMissingIncluded(data: ListResponse, r: string, ov: OverridesMap)
    ensures forall j :: 0 <= j < |data.detail| && ProductsOf(data.detail[j].results, r) == []
              && FirstKeyAt(data.detail, j, r, ov)
              ==> QueryLabel(data.detail[j]) in Selection(data, r, ov).missing
  {
    RunMatchesFirstKeys(data.detail, r, ov);
    CollectMembers(data.detail, KeyOf(r, ov), MissingPick(r, ov));
    MissingPickIsEmpty(data.detail, r, ov);
  }

  /** Every missing label is that of a query with no candidate at the
      retailer, at a query whose key is new. */
  lemma SelectionMissingSourced(data: ListResponse, r: string, ov: OverridesMap)
    ensures forall m :: m in Selection(data, r, ov).missing ==>
              exists j :: 0 <= j < |data.detail| && ProductsOf(data.detail[j].results, r) == []
                          && FirstKeyAt(data.detail, j, r, ov) && m == QueryLabel(data.detail[j])
  {
    var detail := data.detail;
    var pick := MissingPick(r, ov);
    RunMatchesFirstKeys(detail, r, ov);
    CollectMembers(detail, KeyOf(r, ov), pick);
    MissingPickIsEmpty(detail, r, ov);
    forall m | m in Selection(data, r, ov).missing
      ensures exists j :: 0 <= j < |detail| && ProductsOf(detail[j].results, r) == []
                          && FirstKeyAt(detail, j, r, ov) && m == QueryLabel(detail[j])
    {
      var j :| 0 <= j < |detail| && pick(detail[j]).Some? && FirstAt(detail, j, KeyOf(r, ov))
               && m == pick(detail[j]).value;
      assert FirstKeyAt(detail, j, r, ov);
    }
  }

  /** With no two queries sharing a key, every query is accounted for:
      it gives either an item or a missing label. */
  lemma DistinctKeysAccountForAll(data: ListResponse, r: string, ov: OverridesMap)
    requires forall i, j :: 0 <= i < j < |data.detail| ==>
               EntryKey(data.detail[i], r, ov) != EntryKey(data.detail[j], r, ov)
    ensures |Selection(data, r, ov).items| + |Selection(data, r, ov).missing| == |data.detail|
  {
    RunMatchesFirstKeys(data.detail, r, ov);
    CollectLengths(data.detail, KeyOf(r, ov), ItemPick(r, ov), MissingPick(r, ov));
  }

  /** When the queries' labels are pairwise distinct, a query that has a
      candidate at the retailer never shows up as missing there. */
  lemma CandidatesNeverMissing(data: ListResponse, r: string, ov: OverridesMap, j: int)
    requires forall a, b :: 0 <= a < b < |data.detail| ==> QueryLabel(data.detail[a]) != QueryLabel(data.detail[b])
    requires 0 <= j < |data.detail| && ProductsOf(data.detail[j].results, r) != []
    ensures QueryLabel(data.detail[j]) !in Selection(data, r, ov).missing
  {
    SelectionMissingSourced(data, r, ov);
    forall k | 0 <= k < |data.detail| && ProductsOf(data.detail[k].results, r) == []
      ensures QueryLabel(data.detail[k]) != QueryLabel(data.detail[j])
    {
      assert k != j;
    }
  }
}
