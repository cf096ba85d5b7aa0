/** The store of retailers the user has switched on, and the counter that
    makes the retailer picker flash. */
module RetailersStore {

  /** `s.filter(x => x !== v)`. */
  function Without(s: seq<string>, v: string): (r: seq<string>)
    ensures v !in r && |r| <= |s|
    ensures forall x :: x != v ==> (x in r <==> x in s)
  {
    if s == [] then []
    else (if s[0] == v then [] else [s[0]]) + Without(s[1..], v)
  }

  /** Filtering keeps the others in their order: it distributes over
      concatenation. */
  lemma {:induction false} WithoutAppend(s: seq<string>, t: seq<string>, v: string)
    ensures Without(s + t, v) == Without(s, v) + Without(t, v)
    decreases |s|
  {
    if s != [] {
      assert (s + t)[1..] == s[1..] + t;
      WithoutAppend(s[1..], t, v);
    } else {
      assert s + t == t;
    }
  }

  lemma {:induction false} WithoutAbsent(s: seq<string>, v: string)
    requires v !in s
    ensures Without(s, v) == s
    decreases |s|
  {
    if s != [] {
      WithoutAbsent(s[1..], v);
    }
  }

  predicate NoDuplicates(s: seq<string>) {
    forall i, j :: 0 <= i < j < |s| ==> s[i] != s[j]
  }

  lemma {:induction false} WithoutNoDuplicates(s: seq<string>, v: string)
    requires NoDuplicates(s)
    ensures NoDuplicates(Without(s, v))
    decreases |s|
  {
    if s != [] {
      WithoutNoDuplicates(s[1..], v);
      var rest := Without(s[1..], v);
      assert s[0] !in s[1..] by {
        forall j | 0 <= j < |s[1..]| ensures s[1..][j] != s[0] { assert s[1..][j] == s[1 + j]; }
      }
      assert s[0] !in rest;
    }
  }

  /** `toggleRetailer`'s new list. */
  function Toggled(s: seq<string>, v: string): seq<string> {
    if v in s then Without(s, v) else s + [v]
  }

  /** Toggling flips the membership of `v` and of nothing else. */
  lemma ToggleFlips(s: seq<string>, v: string)
    ensures (v in Toggled(s, v)) <==> v !in s
    ensures forall x :: x != v ==> (x in Toggled(s, v) <==> x in s)
  {
  }

  /** The others keep their relative order: removing `v` from the toggled list
      gives the same list as removing it from the original. */
  lemma ToggleKeepsOrder(s: seq<string>, v: string)
    ensures Without(Toggled(s, v), v) == Without(s, v)
  {
    if v !in s {
      WithoutAppend(s, [v], v);
      assert Without([v], v) == [];
    } else {
      WithoutAbsent(Without(s, v), v);
    }
  }

  lemma ToggleNoDuplicates(s: seq<string>, v: string)
    requires NoDuplicates(s)
    ensures NoDuplicates(Toggled(s, v))
  {
    if v in s {
      WithoutNoDuplicates(s, v);
    }
  }

  /** Toggling twice restores the set of members; when `v` was absent it
      restores the list itself. */
  lemma ToggleTwice(s: seq<string>, v: string)
    ensures forall x :: x in Toggled(Toggled(s, v), v) <==> x in s
    ensures v !in s ==> Toggled(Toggled(s, v), v) == s
  {
    if v !in s {
      WithoutAppend(s, [v], v);
      WithoutAbsent(s, v);
      assert Without([v], v) == [];
    }
  }

  /** The `$selectedRetailers` and `$highlightRetailers` atoms. */
  class SelectedRetailers {
    var selected: seq<string>
    var highlight: int

    constructor ()
      ensures selected == [] && highlight == 0
    {
      selected := [];
      highlight := 0;
    }

    /** `toggleRetailer(v)`. */
    method Toggle(v: string)
      modifies this`selected
      ensures v in old(selected) ==> selected == Without(old(selected), v)
      ensures v !in old(selected) ==> selected == old(selected) + [v]
      ensures NoDuplicates(old(selected)) ==> NoDuplicates(selected)
    {
      if NoDuplicates(selected) { ToggleNoDuplicates(selected, v); }
      selected := if v in selected then Without(selected, v) else selected + [v];
    }

    /** `clearRetailers()`. */
    method Clear()
      modifies this`selected
      ensures selected == []
    {
      selected := [];
    }

    /** `$selectedRetailers.set(next)`. */
    method Set(next: seq<string>)
      modifies this`selected
      ensures selected == next
    {
      selected := next;
    }

    /** `triggerRetailerHighlight()`: the counter moves up by one. */
    method TriggerHighlight()
      modifies this`highlight
      ensures highlight == old(highlight) + 1
    {
      highlight := highlight + 1;
    }
  }
}
