/**
 * The search form: a single term or a pasted shopping list, validated and
 * then stored as the submitted search; searching needs the matching mode,
 * at least one selected retailer and something submitted.
 */
module FormSearch {
  import opened Wrappers
  import opened Strings
  import opened Retailers
  import opened RetailersStore

  /** Drops one `\r` that ends a line. */
  function DropCR(s: string): string {
    if |s| > 0 && s[|s| - 1] == '\r' then s[..|s| - 1] else s
  }

  /** `text.split(/\r?\n/)`: split at each `\n`, the `\r` before a `\n`
      belonging to the separator. */
  function Lines(text: string): (r: seq<string>)
    ensures |r| == |Split(text, '\n')|
  {
    var p := Split(text, '\n');
    seq(|p|, i requires 0 <= i < |p| => if i < |p| - 1 then DropCR(p[i]) else p[i])
  }

  /** `.map(x => x.trim()).filter(Boolean)`. */
  function TrimNonEmpty(lines: seq<string>): (r: seq<string>)
    ensures |r| <= |lines|
    ensures forall i :: 0 <= i < |r| ==> r[i] != "" && Trim(r[i]) == r[i]
  {
    if lines == [] then []
    else
      var rest := TrimNonEmpty(lines[1..]);
      var t := Trim(lines[0]);
      if t == "" then rest
      else
        TrimIdempotent(lines[0]);
        assert forall i :: 0 < i < |[t] + rest| ==> ([t] + rest)[i] == rest[i - 1];
        [t] + rest
  }

  /** Trimming and filtering work line by line: a list split in two parses
      as its two halves. */
  lemma {:induction false} TrimNonEmptyConcat(a: seq<string>, b: seq<string>)
    ensures TrimNonEmpty(a + b) == TrimNonEmpty(a) + TrimNonEmpty(b)
    decreases |a|
  {
    if a == [] {
      assert a + b == b;
    } else {
      assert (a + b)[1..] == a[1..] + b;
      TrimNonEmptyConcat(a[1..], b);
    }
  }

  /** One line yields its trimmed text, or nothing when it is blank. */
  lemma TrimNonEmptySingle(l: string)
    ensures TrimNonEmpty([l]) == if Trim(l) == "" then [] else [Trim(l)]
  {
    assert [l][1..] == [];
  }

  /** The items of a pasted list: its lines, trimmed, blank ones dropped. */
  function ParseShoppingList(text: string): (r: seq<string>)
    ensures forall i :: 0 <= i < |r| ==> r[i] != "" && Trim(r[i]) == r[i]
    ensures |r| <= |Split(text, '\n')|
  {
    TrimNonEmpty(Lines(text))
  }

  lemma {:induction false} TrimNonEmptyPointwise(a: seq<string>, b: seq<string>)
    requires |a| == |b| && forall i :: 0 <= i < |a| ==> Trim(a[i]) == Trim(b[i])
    ensures TrimNonEmpty(a) == TrimNonEmpty(b)
    decreases |a|
  {
    if a != [] {
      TrimNonEmptyPointwise(a[1..], b[1..]);
    }
  }

  /** Dropping a final `\r` does not change the trimmed line. */
  lemma DropCRTrim(s: string)
    ensures Trim(DropCR(s)) == Trim(s)
  {
    if |s| > 0 && s[|s| - 1] == '\r' {
      var d := DropCR(s);
      assert s == "" + d + "\r";
      TrimIgnoresSurroundingSpace("", d, "\r");
    }
  }

  /** A carriage return before a line break makes no difference once the
      lines are trimmed: the list parses as if split at `\n` alone. */
  lemma CarriageReturnsIgnored(text: string)
    ensures ParseShoppingList(text) == TrimNonEmpty(Split(text, '\n'))
  {
    var p := Split(text, '\n');
    var l := Lines(text);
    forall i | 0 <= i < |p|
      ensures Trim(l[i]) == Trim(p[i])
    {
      DropCRTrim(p[i]);
    }
    TrimNonEmptyPointwise(l, p);
  }

  lemma {:induction false} TrimNonEmptyKeepsItems(items: seq<string>)
    requires forall i :: 0 <= i < |items| ==> items[i] != "" && Trimmed(items[i])
    ensures TrimNonEmpty(items) == items
    decreases |items|
  {
    if items != [] {
      TrimmedIsFixed(items[0]);
      TrimNonEmptyKeepsItems(items[1..]);
    }
  }

  /** Items written one per line come back as they were, in order. */
  lemma ParseJoinRoundTrip(items: seq<string>)
    requires |items| >= 1
    requires forall i :: 0 <= i < |items| ==> items[i] != "" && Trimmed(items[i]) && '\n' !in items[i]
    ensures ParseShoppingList(Join(items, '\n')) == items
  {
    SplitJoin(items, '\n');
    CarriageReturnsIgnored(Join(items, '\n'));
    TrimNonEmptyKeepsItems(items);
  }

  /** The item validator: an error when the trimmed term has fewer than two characters. */
  function ItemError(value: string): (err: Option<string>)
    ensures err.None? <==> |Trim(value)| >= 2
  {
    if |Trim(value)| < 2 then Some("El t\U{E9}rmino de b\U{FA}squeda debe tener al menos 2 caracteres") else None
  }

  /** The list validator: an error when the text parses to no item. */
  function ListError(value: string): (err: Option<string>)
    ensures err.None? <==> ParseShoppingList(value) != []
  {
    if |ParseShoppingList(value)| < 1 then Some("Peg\U{E1} al menos 1 \U{ED}tem") else None
  }

  /** The two search modes: one term, or a shopping list. */
  datatype Mode = Single | List

  predicate CanSearchItem(mode: Mode, retailers: seq<string>, submittedItem: string) {
    mode == Single && |retailers| > 0 && |Trim(submittedItem)| > 0
  }

  predicate CanSearchList(mode: Mode, retailers: seq<string>, submittedList: seq<string>) {
    mode == List && |retailers| > 0 && |submittedList| > 0
  }

  /** The names of all retailers, in table order. */
  function AllRetailerNames(): (r: seq<string>)
    ensures |r| == |RETAILERS|
    ensures forall i :: 0 <= i < |r| ==> r[i] == RETAILERS[i].Name()
    ensures forall id: RetailerId :: id.Name() in r
    ensures forall i, j :: 0 <= i < j < |r| ==> r[i] != r[j]
  {
    var r := seq(|RETAILERS|, i requires 0 <= i < |RETAILERS| => RETAILERS[i].Name());
    assert r[0] == Dia.Name() && r[1] == Carrefour.Name() && r[2] == Jumbo.Name() && r[3] == Vea.Name();
    r
  }

  /** The "all retailers" switch is on when as many retailers as the table
      has are selected. */
  predicate AllChecked(selected: seq<string>) {
    |selected| == |RETAILERS|
  }

  /** The switch: select every retailer, or none. */
  method SetAllRetailers(checked: bool, store: SelectedRetailers)
    modifies store`selected
    ensures store.selected == if checked then AllRetailerNames() else []
    ensures AllChecked(store.selected) <==> checked
  {
    if checked {
      store.Set(AllRetailerNames());
    } else {
      store.Set([]);
    }
  }

  class SearchForm {
    var mode: Mode
    var submittedItem: string
    var submittedList: seq<string>

    constructor ()
      ensures mode == Single && submittedItem == "" && submittedList == []
    {
      mode := Single;
      submittedItem := "";
      submittedList := [];
    }

    /** At most one kind of search is submitted at a time. */
    predicate Exclusive()
      reads this
    {
      submittedItem == "" || submittedList == []
    }

    method SetMode(m: Mode)
      modifies this`mode
      ensures mode == m
    {
      mode := m;
    }

    /** Submitting: with no retailer selected only the highlight counter
        moves; otherwise the current mode's text is validated and, when
        valid, stored while the other kind of search is cleared. */
    method Submit(retailers: SelectedRetailers, itemText: string, listText: string)
      modifies this, retailers`highlight
      ensures mode == old(mode)
      ensures |retailers.selected| == 0 ==>
                && retailers.highlight == old(retailers.highlight) + 1
                && submittedItem == old(submittedItem) && submittedList == old(submittedList)
      ensures |retailers.selected| > 0 ==> retailers.highlight == old(retailers.highlight)
      ensures |retailers.selected| > 0 && mode == Single ==>
                if ItemError(itemText).None?
                then submittedItem == Trim(itemText) && submittedList == []
                else submittedItem == old(submittedItem) && submittedList == old(submittedList)
      ensures |retailers.selected| > 0 && mode == List ==>
                if ListError(listText).None?
                then submittedList == ParseShoppingList(listText) && submittedItem == ""
                else submittedItem == old(submittedItem) && submittedList == old(submittedList)
      ensures old(Exclusive()) ==> Exclusive()
      ensures mode == Single && ItemError(itemText).None? ==>
                (CanSearchItem(mode, retailers.selected, submittedItem) <==> |retailers.selected| > 0)
      ensures mode == List && ListError(listText).None? ==>
                (CanSearchList(mode, retailers.selected, submittedList) <==> |retailers.selected| > 0)
    {
      if |retailers.selected| == 0 {
        retailers.TriggerHighlight();
        return;
      }
      if mode == Single {
        if ItemError(itemText).None? {
          TrimIdempotent(itemText);
          submittedItem := Trim(itemText);
          submittedList := [];
        }
        return;
      }
      if ListError(listText).None? {
        submittedList := ParseShoppingList(listText);
        submittedItem := "";
      }
    }

    /** The reset that runs when no retailer is selected: nothing stays
        submitted, so neither search can run. */
    method ResetOnEmptyRetailers(retailers: seq<string>)
      modifies this`submittedItem, this`submittedList
      ensures |retailers| == 0 ==> submittedItem == "" && submittedList == []
      ensures |retailers| != 0 ==> submittedItem == old(submittedItem) && submittedList == old(submittedList)
      ensures |retailers| == 0 ==>
                forall rs: seq<string> :: !CanSearchItem(mode, rs, submittedItem) && !CanSearchList(mode, rs, submittedList)
    {
      if |retailers| != 0 {
        return;
      }
      submittedItem := "";
      submittedList := [];
    }
  }
}
