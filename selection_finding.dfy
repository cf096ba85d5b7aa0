/**
 * The selection pass records both the labels of missing queries and the
 * dedupe ids of chosen products in one `seen` set. A query without
 * candidates whose label equals the id of a product chosen earlier is
 * therefore dropped from the missing list. This module exhibits such an
 * input, and defines the pass with one set per kind, for which every
 * query without candidates is reported.
 */
module SelectionFinding {
  import opened Wrappers
  import opened Strings
  import opened Catalog
  import opened ShoppingUtils
  import opened SelectionFacts

  /** A water bottle whose id happens to be the word "leche". */
  const WATER: Product := Product(Some("leche"), "Agua", Some(100), Some("dia"), "")

  /** Two queries: "agua", which Dia answers with `WATER`, and "leche",
      which nobody answers. */
  const EXAMPLE: ListResponse := ListResponse(
    ["agua", "leche"],
    [QueryDetail(Some("agua"), [RetailerResult("dia", [WATER])]), QueryDetail(Some("leche"), [])],
    ["dia"])

  lemma ExampleLabels()
    ensures QueryLabel(EXAMPLE.detail[0]) == "agua" && QueryLabel(EXAMPLE.detail[1]) == "leche"
  {
    TrimmedIsFixed("agua");
    TrimmedIsFixed("leche");
  }

  /** Dia answers "agua" with `WATER` and nothing for "leche". */
  lemma ExampleChoices()
    ensures ChosenFor(EXAMPLE.detail[0], "dia", map[]) == Some(WATER)
    ensures ProductsOf(EXAMPLE.detail[1].results, "dia") == []
    ensures ChosenFor(EXAMPLE.detail[1], "dia", map[]) == None
  {
    ExampleLabels();
    assert ProductsOf(EXAMPLE.detail[0].results, "dia") == [WATER];
  }

  /** The pass over two queries is two steps. */
  lemma RunTwo(d0: QueryDetail, d1: QueryDetail, r: string, ov: OverridesMap)
    ensures Run([d0, d1], r, ov) == Step(Step(Pass([], [], {}), d0, r, ov), d1, r, ov)
  {
    assert [d0][..0] == [];
    assert Run([d0], r, ov) == Step(Run([], r, ov), d0, r, ov);
    assert [d0, d1][..1] == [d0];
    assert Run([d0, d1], r, ov) == Step(Run([d0], r, ov), d1, r, ov);
  }

  /** As written, "leche" has no candidate at Dia and yet is not reported
      missing there: its label collides with `WATER`'s id. */
  lemma SharedSeenHidesMissingQuery()
    ensures ProductsOf(EXAMPLE.detail[1].results, "dia") == []
    ensures Selection(EXAMPLE, "dia", map[]).items == [SelectedItem("agua", WATER)]
    ensures Selection(EXAMPLE, "dia", map[]).missing == []
  {
    var detail := EXAMPLE.detail;
    ExampleLabels();
    ExampleChoices();
    RunTwo(detail[0], detail[1], "dia", map[]);
    assert detail == [detail[0], detail[1]];
    var p0 := Step(Pass([], [], {}), detail[0], "dia", map[]);
    assert DedupeId(WATER) == "leche";
    assert p0 == Pass([SelectedItem("agua", WATER)], [], {"leche"});
    assert Step(p0, detail[1], "dia", map[]) == p0;
  }

  /** The pass with separate sets for labels already reported missing and
      product ids already chosen. */
  datatype SplitPass = SplitPass(
    items: seq<SelectedItem>,
    missing: seq<string>,
    seenQueries: set<string>,
    seenIds: set<string>)

  function SplitStep(st: SplitPass, d: QueryDetail, r: string, ov: OverridesMap): SplitPass {
    var query := QueryLabel(d);
    match ChosenFor(d, r, ov)
    case None =>
      if query in st.seenQueries then st
      else SplitPass(st.items, st.missing + [query], st.seenQueries + {query}, st.seenIds)
    case Some(p) =>
      if DedupeId(p) in st.seenIds then st
      else SplitPass(st.items + [SelectedItem(query, p)], st.missing, st.seenQueries, st.seenIds + {DedupeId(p)})
  }

  function SplitRun(detail: seq<QueryDetail>, r: string, ov: OverridesMap): SplitPass {
    if detail == [] then SplitPass([], [], {}, {})
    else SplitStep(SplitRun(detail[..|detail| - 1], r, ov), detail[|detail| - 1], r, ov)
  }

  /** The selection with the two sets kept apart. */
  function SplitSelection(data: ListResponse, r: string, ov: OverridesMap): RetailerSelection {
    var p := SplitRun(data.detail, r, ov);
    RetailerSelection(p.items, p.missing, Sorting.SumBy(p.items, ItemPrice))
  }

  lemma SplitStepReports(st: SplitPass, d: QueryDetail, r: string, ov: OverridesMap)
    requires st.seenQueries == Elems(st.missing) && NoDup(st.missing)
    ensures SplitStep(st, d, r, ov).seenQueries == Elems(SplitStep(st, d, r, ov).missing)
    ensures NoDup(SplitStep(st, d, r, ov).missing)
    ensures forall x :: x in st.missing ==> x in SplitStep(st, d, r, ov).missing
    ensures ChosenFor(d, r, ov).None? ==> QueryLabel(d) in SplitStep(st, d, r, ov).missing
  {
    var q := QueryLabel(d);
    if ChosenFor(d, r, ov).None? && q !in st.seenQueries {
      assert Elems(st.missing + [q]) == Elems(st.missing) + {q};
    }
  }

  /** With separate sets, every query without a candidate at the retailer
      is reported missing, and no label is reported twice. */
  lemma {:induction false} SplitRunReportsEveryMissing(detail: seq<QueryDetail>, r: string, ov: OverridesMap)
    ensures forall j :: 0 <= j < |detail| && ChosenFor(detail[j], r, ov).None?
              ==> QueryLabel(detail[j]) in SplitRun(detail, r, ov).missing
    ensures NoDup(SplitRun(detail, r, ov).missing)
    ensures SplitRun(detail, r, ov).seenQueries == Elems(SplitRun(detail, r, ov).missing)
    decreases |detail|
  {
    if detail != [] {
      var n := |detail| - 1;
      var pre := detail[..n];
      SplitRunReportsEveryMissing(pre, r, ov);
      var st := SplitRun(pre, r, ov);
      SplitStepReports(st, detail[n], r, ov);
      var next := SplitRun(detail, r, ov);
      assert next == SplitStep(st, detail[n], r, ov);
      forall j | 0 <= j < |detail| && ChosenFor(detail[j], r, ov).None?
        ensures QueryLabel(detail[j]) in next.missing
      {
        if j < n {
          assert pre[j] == detail[j];
          assert QueryLabel(pre[j]) in st.missing;
        } else {
          assert j == n;
        }
      }
    }
  }

  /** The corrected selection reports every query that has no candidate
      at the retailer, each once. */
  lemma SplitSelectionReportsEveryMissing(data: ListResponse, r: string, ov: OverridesMap)
    ensures forall j :: 0 <= j < |data.detail| && ProductsOf(data.detail[j].results, r) == []
              ==> QueryLabel(data.detail[j]) in SplitSelection(data, r, ov).missing
    ensures NoDup(SplitSelection(data, r, ov).missing)
  {
    SplitRunReportsEveryMissing(data.detail, r, ov);
    assert forall j :: 0 <= j < |data.detail| && ProductsOf(data.detail[j].results, r) == []
             ==> ChosenFor(data.detail[j], r, ov).None?;
  }

  lemma SplitRunTwo(d0: QueryDetail, d1: QueryDetail, r: string, ov: OverridesMap)
    ensures SplitRun([d0, d1], r, ov) == SplitStep(SplitStep(SplitPass([], [], {}, {}), d0, r, ov), d1, r, ov)
  {
    assert [d0][..0] == [];
    assert SplitRun([d0], r, ov) == SplitStep(SplitRun([], r, ov), d0, r, ov);
    assert [d0, d1][..1] == [d0];
    assert SplitRun([d0, d1], r, ov) == SplitStep(SplitRun([d0], r, ov), d1, r, ov);
  }

  /** On the example, the corrected pass reports "leche" as missing. */
  lemma SplitSelectionReportsLeche()
    ensures SplitSelection(EXAMPLE, "dia", map[]).missing == ["leche"]
  {
    var detail := EXAMPLE.detail;
    ExampleLabels();
    ExampleChoices();
    SplitRunTwo(detail[0], detail[1], "dia", map[]);
    assert detail == [detail[0], detail[1]];
    var p0 := SplitStep(SplitPass([], [], {}, {}), detail[0], "dia", map[]);
    assert DedupeId(WATER) == "leche";
    assert p0 == SplitPass([SelectedItem("agua", WATER)], [], {}, {"leche"});
    assert SplitStep(p0, detail[1], "dia", map[]).missing == ["leche"];
  }
}
