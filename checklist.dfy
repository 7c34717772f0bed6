/** The checklist: a list of checkboxes turned into labelled rows, a
    checkbox replacer over the rows' labels, a filter over the rows keyed on
    their labels, a "<n> selected" summary fed by the replacer's change
    notification, and a footer whose All and None links check and uncheck. */
module ChecklistWidget {
  import opened Common
  import opened Text
  import opened CheckReplaceWidget
  import opened ItemFilterWidget

  /** A checkbox handed to the checklist: its value attribute, its
      `data-label` attribute if it has one, and whether it is checked. */
  datatype Descriptor = Descriptor(value: string, dataLabel: Option<string>, checked: bool)

  /** The `data-label` texts that `.data('label')` turns into a falsy value:
      the empty string, `false`, `null`, and the number strings `0` and `NaN`
      (a text equal to the rendering of its own numeric value becomes that
      number). */
  predicate FalsyData(s: string)
  {
    s == "" || s == "0" || s == "false" || s == "null" || s == "NaN"
  }

  /** `$(this).data('label') || cb_value`: an absent data label, or one that
      converts to a falsy value, falls back to the checkbox value. */
  function LabelOf(d: Descriptor): (r: string)
    ensures d.dataLabel.None? ==> r == d.value
    ensures d.dataLabel.Some? && FalsyData(d.dataLabel.value) ==> r == d.value
    ensures d.dataLabel.Some? && !FalsyData(d.dataLabel.value) ==> r == d.dataLabel.value
  {
    match d.dataLabel
    case Some(s) => if FalsyData(s) then d.value else s
    case None => d.value
  }

  /** `create_line_items`: one row per checkbox, a new label before it, the
      check class added to the checkbox. */
  function Lines(ds: seq<Descriptor>): (r: seq<Item>)
    ensures |r| == |ds|
    ensures forall i :: 0 <= i < |ds| ==> r[i] == Item(ds[i].value, LabelOf(ds[i]), true, ds[i].checked, Unmarked)
  {
    seq(|ds|, i requires 0 <= i < |ds| => Item(ds[i].value, LabelOf(ds[i]), true, ds[i].checked, Unmarked))
  }

  /** Every checkbox of a checklist gets the check class, so wiring counts
      every checked one and the counter starts exact. */
  lemma LinesCountExactly(ds: seq<Descriptor>)
    ensures forall i :: 0 <= i < |ds| ==> Wired(Lines(ds))[i].hasCheckClass
    ensures CountReplaceableChecked(Lines(ds)) == CountChecked(Wired(Lines(ds)))
  {
    InitialCountMatchesIff(Lines(ds));
  }

  /** The list item of row `id`: no value attribute, the label's text as its
      text, one label. */
  function Row(id: nat, caption: string): Element
  {
    Element(id, None, caption, [caption])
  }

  function Rows(items: seq<Item>): (r: seq<Element>)
    ensures |r| == |items|
    ensures forall i :: 0 <= i < |items| ==> r[i] == Row(i, items[i].caption)
  {
    seq(|items|, i requires 0 <= i < |items| => Row(i, items[i].caption))
  }

  lemma RowsOfSameLabels(a: seq<Item>, b: seq<Item>)
    requires SameLabels(a, b)
    ensures Rows(a) == Rows(b)
  {
    assert forall i :: 0 <= i < |a| ==> Rows(a)[i] == Rows(b)[i];
  }

  // ---------------------------------------------------------------------
  // The summary

  /** `checked_count + ' selected'`. */
  function SummaryText(n: int): string
  {
    IntToString(n) + " selected"
  }

  /** Reads the count back from a summary text. */
  function CountInSummary(t: string): Option<int>
  {
    if |t| >= 9 && t[|t| - 9..] == " selected" then ParseInt(t[..|t| - 9]) else None
  }

  /** The summary text shows the count and nothing but the count. */
  lemma SummaryCarriesCount(n: int)
    ensures CountInSummary(SummaryText(n)) == Some(n)
  {
    var t := SummaryText(n);
    assert t[|t| - 9..] == " selected";
    assert t[..|t| - 9] == IntToString(n);
    IntToStringRoundTrip(n);
  }

  // ---------------------------------------------------------------------
  // Checked values

  /** The values of the checked checkboxes, in row order. */
  function CheckedValues(items: seq<Item>): seq<string>
  {
    if items == [] then []
    else
      var n := |items| - 1;
      CheckedValues(items[..n]) + (if items[n].checked then [items[n].value] else [])
  }

  /** One value per checked checkbox, and a value is listed exactly when
      some checked checkbox carries it. */
  lemma {:induction false} CheckedValuesAreTheChecked(items: seq<Item>)
    ensures |CheckedValues(items)| == CountChecked(items)
    ensures forall v :: v in CheckedValues(items) <==>
      exists i :: 0 <= i < |items| && items[i].checked && items[i].value == v
    decreases |items|
  {
    if items != [] {
      var n := |items| - 1;
      CheckedValuesAreTheChecked(items[..n]);
      forall v | v in CheckedValues(items)
        ensures exists i :: 0 <= i < |items| && items[i].checked && items[i].value == v
      {
        if v in CheckedValues(items[..n]) {
          var i :| 0 <= i < n && items[..n][i].checked && items[..n][i].value == v;
          assert items[i] == items[..n][i];
        } else {
          assert items[n].checked && items[n].value == v;
        }
      }
      forall v | exists i :: 0 <= i < |items| && items[i].checked && items[i].value == v
        ensures v in CheckedValues(items)
      {
        var i :| 0 <= i < |items| && items[i].checked && items[i].value == v;
        if i < n {
          assert items[..n][i] == items[i];
        }
      }
    }
  }

  // ---------------------------------------------------------------------
  // Moving the checked rows to the top

  /** The class of the label in row `id`. */
  function MarkAt(marks: seq<Mark>, id: nat): Mark
  {
    if id < |marks| then marks[id] else Unmarked
  }

  function Marks(items: seq<Item>): (r: seq<Mark>)
    ensures |r| == |items| && forall i :: 0 <= i < |items| ==> r[i] == items[i].mark
  {
    seq(|items|, i requires 0 <= i < |items| => items[i].mark)
  }

  /** The rows whose label has class `m`, in their order. */
  function WithMark(rows: seq<Element>, marks: seq<Mark>, m: Mark): (r: seq<Element>)
    ensures |r| <= |rows|
  {
    if rows == [] then []
    else
      var n := |rows| - 1;
      WithMark(rows[..n], marks, m) + (if MarkAt(marks, rows[n].id) == m then [rows[n]] else [])
  }

  /** One pass keeps only rows it was given, and only rows of its class. */
  lemma {:induction false} WithMarkKeeps(rows: seq<Element>, marks: seq<Mark>, m: Mark)
    ensures forall e :: e in WithMark(rows, marks, m) ==> e in rows && MarkAt(marks, e.id) == m
    decreases |rows|
  {
    if rows != [] {
      var n := |rows| - 1;
      WithMarkKeeps(rows[..n], marks, m);
      assert forall e :: e in rows[..n] ==> e in rows;
    }
  }

  /** `bubble_checked`: the rows whose label has the on class, then those
      whose label has the off class. */
  function Bubble(rows: seq<Element>, marks: seq<Mark>): seq<Element>
  {
    WithMark(rows, marks, On) + WithMark(rows, marks, Off)
  }

  lemma {:induction false} WithMarkAppend(a: seq<Element>, b: seq<Element>, marks: seq<Mark>, m: Mark)
    ensures WithMark(a + b, marks, m) == WithMark(a, marks, m) + WithMark(b, marks, m)
    decreases |b|
  {
    if b == [] {
      assert a + b == a;
    } else {
      var n := |b| - 1;
      assert (a + b)[..|a + b| - 1] == a + b[..n];
      WithMarkAppend(a, b[..n], marks, m);
    }
  }

  lemma {:induction false} WithMarkOfWithMark(rows: seq<Element>, marks: seq<Mark>, m: Mark, m': Mark)
    ensures WithMark(WithMark(rows, marks, m), marks, m') == if m == m' then WithMark(rows, marks, m) else []
    decreases |rows|
  {
    if rows != [] {
      var n := |rows| - 1;
      var last := if MarkAt(marks, rows[n].id) == m then [rows[n]] else [];
      WithMarkOfWithMark(rows[..n], marks, m, m');
      WithMarkAppend(WithMark(rows[..n], marks, m), last, marks, m');
      assert last != [] ==> last[..0] == [];
    }
  }

  lemma WithMarkStep(rows: seq<Element>, k: nat, marks: seq<Mark>, m: Mark)
    requires k < |rows|
    ensures WithMark(rows[..k + 1], marks, m) ==
      WithMark(rows[..k], marks, m) + if MarkAt(marks, rows[k].id) == m then [rows[k]] else []
  {
    assert rows[..k + 1][..k] == rows[..k];
  }

  /** Each of the two groups keeps its relative order. */
  lemma BubbleIsStable(rows: seq<Element>, marks: seq<Mark>)
    ensures WithMark(Bubble(rows, marks), marks, On) == WithMark(rows, marks, On)
    ensures WithMark(Bubble(rows, marks), marks, Off) == WithMark(rows, marks, Off)
  {
    WithMarkAppend(WithMark(rows, marks, On), WithMark(rows, marks, Off), marks, On);
    WithMarkAppend(WithMark(rows, marks, On), WithMark(rows, marks, Off), marks, Off);
    WithMarkOfWithMark(rows, marks, On, On);
    WithMarkOfWithMark(rows, marks, Off, On);
    WithMarkOfWithMark(rows, marks, On, Off);
    WithMarkOfWithMark(rows, marks, Off, Off);
  }

  /** No unchecked row comes before a checked one. */
  lemma BubbleCheckedFirst(rows: seq<Element>, marks: seq<Mark>)
    ensures forall i, j :: 0 <= i < j < |Bubble(rows, marks)| ==>
      !(MarkAt(marks, Bubble(rows, marks)[i].id) == Off && MarkAt(marks, Bubble(rows, marks)[j].id) == On)
  {
    var on, off := WithMark(rows, marks, On), WithMark(rows, marks, Off);
    var b := Bubble(rows, marks);
    WithMarkKeeps(rows, marks, On);
    WithMarkKeeps(rows, marks, Off);
    forall i, j | 0 <= i < j < |b|
      ensures !(MarkAt(marks, b[i].id) == Off && MarkAt(marks, b[j].id) == On)
    {
      if j < |on| {
        assert b[i] == on[i] && b[j] == on[j];
      } else {
        assert b[j] == off[j - |on|];
      }
    }
  }

  lemma {:induction false} WithMarkPartition(rows: seq<Element>, marks: seq<Mark>)
    ensures multiset(WithMark(rows, marks, On)) + multiset(WithMark(rows, marks, Off)) +
      multiset(WithMark(rows, marks, Unmarked)) == multiset(rows)
    decreases |rows|
  {
    if rows != [] {
      var n := |rows| - 1;
      var init, last := rows[..n], rows[n];
      var on, off, un := multiset(WithMark(init, marks, On)), multiset(WithMark(init, marks, Off)),
        multiset(WithMark(init, marks, Unmarked));
      assert on + off + un == multiset(init) by {
        WithMarkPartition(init, marks);
      }
      assert multiset(rows) == multiset(init) + multiset{last} by {
        assert rows == init + [last];
      }
      var m := MarkAt(marks, last.id);
      var mine := multiset{last};
      assert multiset(WithMark(rows, marks, On)) == on + (if m == On then mine else multiset{}) by {
        WithMarkLast(rows, marks, On);
      }
      assert multiset(WithMark(rows, marks, Off)) == off + (if m == Off then mine else multiset{}) by {
        WithMarkLast(rows, marks, Off);
      }
      assert multiset(WithMark(rows, marks, Unmarked)) == un + (if m == Unmarked then mine else multiset{}) by {
        WithMarkLast(rows, marks, Unmarked);
      }
      SumOfThree(on, off, un, mine, m);
    }
  }

  /** Adding one element to the part of its class adds it to the sum of the parts. */
  lemma SumOfThree(on: multiset<Element>, off: multiset<Element>, un: multiset<Element>,
                   mine: multiset<Element>, m: Mark)
    ensures (on + (if m == On then mine else multiset{})) + (off + (if m == Off then mine else multiset{})) +
      (un + (if m == Unmarked then mine else multiset{})) == on + off + un + mine
  {
  }

  lemma WithMarkLast(rows: seq<Element>, marks: seq<Mark>, m: Mark)
    requires rows != []
    ensures multiset(WithMark(rows, marks, m)) == multiset(WithMark(rows[..|rows| - 1], marks, m)) +
      if MarkAt(marks, rows[|rows| - 1].id) == m then multiset{rows[|rows| - 1]} else multiset{}
  {
  }

  lemma {:induction false} WithMarkNone(rows: seq<Element>, marks: seq<Mark>, m: Mark)
    requires forall i :: 0 <= i < |rows| ==> MarkAt(marks, rows[i].id) != m
    ensures WithMark(rows, marks, m) == []
    decreases |rows|
  {
    if rows != [] {
      WithMarkNone(rows[..|rows| - 1], marks, m);
    }
  }

  /** The rows `bubble_checked` loses are exactly those whose label has
      neither class. */
  lemma BubbleDropsOnlyUnmarked(rows: seq<Element>, marks: seq<Mark>)
    ensures multiset(Bubble(rows, marks)) + multiset(WithMark(rows, marks, Unmarked)) == multiset(rows)
  {
    WithMarkPartition(rows, marks);
  }

  /** When every label has one of the two classes, `bubble_checked`
      rearranges the rows and loses none. */
  lemma BubbleIsPermutation(rows: seq<Element>, marks: seq<Mark>)
    requires forall i :: 0 <= i < |rows| ==> MarkAt(marks, rows[i].id) != Unmarked
    ensures multiset(Bubble(rows, marks)) == multiset(rows)
  {
    WithMarkPartition(rows, marks);
    WithMarkNone(rows, marks, Unmarked);
  }

  /** Every row of a wired list has a label showing its checkbox's state. */
  lemma AttachedRowsAreMarked(items: seq<Item>, rows: seq<Element>)
    requires AllInSync(items) && forall i :: 0 <= i < |items| ==> items[i].hasCheckClass
    requires forall e :: e in rows ==> e in Rows(items)
    ensures forall i :: 0 <= i < |rows| ==> MarkAt(Marks(items), rows[i].id) != Unmarked
  {
    forall i | 0 <= i < |rows|
      ensures MarkAt(Marks(items), rows[i].id) != Unmarked
    {
      assert rows[i] in Rows(items);
      var j :| 0 <= j < |items| && Rows(items)[j] == rows[i];
      assert InSync(items[j]);
    }
  }

  /** The label positions whose row is attached to the list. */
  function ShownIds(rows: seq<Element>): set<nat>
  {
    set e | e in rows :: e.id
  }

  // ---------------------------------------------------------------------
  // The widget

  class Checklist {
    const toggles: CheckReplace
    const filter: ItemFilter
    const readonly: bool
    /** A search box was built. */
    const hasSearch: bool
    /** A summary region was built (only when not read-only). */
    const hasSummary: bool
    /** A footer with All and None links was built (only when not read-only). */
    const hasFooter: bool
    /** The caller's `on_check` option is a function. */
    const hasCallback: bool
    /** The text of the summary region, if there is one. */
    var summary: Option<string>
    /** The counts passed to the caller's `on_check`, in order. */
    var delivered: seq<int>

    ghost predicate Valid()
      reads this, toggles, filter
    {
      toggles.Valid() && filter.Valid() &&
      toggles.readonly == readonly && toggles.handlers == (if readonly then 0 else 1) &&
      (forall i :: 0 <= i < |toggles.items| ==> toggles.items[i].hasCheckClass) &&
      filter.items == Rows(toggles.items) && filter.filterOn == "label" &&
      (hasSummary ==> !readonly) && (hasFooter ==> !readonly) &&
      toggles.noneChecked == (toggles.checkedCount <= 0) &&
      summary == (if hasSummary then Some(SummaryText(toggles.checkedCount)) else None) &&
      delivered == (if hasCallback then toggles.notified else [])
    }

    /** Construction (js/checklist.js:64-114): rows from the checkboxes, the
        replacer over them, the summary set from the replacer's count, the
        filter over the rows keyed on labels. */
    constructor (ds: seq<Descriptor>, readonly: bool, showSearch: bool, showSummary: bool,
                 showFooter: bool, hasCallback: bool)
      ensures Valid() && fresh(toggles) && fresh(filter)
      ensures this.readonly == readonly && hasSearch == showSearch && this.hasCallback == hasCallback
      ensures hasSummary == (showSummary && !readonly) && hasFooter == (showFooter && !readonly)
      ensures toggles.items == Wired(Lines(ds)) && toggles.checkedCount == CountChecked(toggles.items)
      ensures filter.visible == filter.items && filter.box == ""
      ensures delivered == [] && toggles.notified == []
    {
      this.readonly := readonly;
      hasSearch := showSearch;
      hasSummary := showSummary && !readonly;
      hasFooter := showFooter && !readonly;
      this.hasCallback := hasCallback;
      var lines := Lines(ds);
      var replacer := new CheckReplace(lines, readonly);
      toggles := replacer;
      filter := new ItemFilter(Rows(replacer.items), "label");
      summary := if showSummary && !readonly then Some("0 selected") else None;
      delivered := [];
      new;
      LinesCountExactly(ds);
      var count := toggles.GetCheckedCount();
      UpdateSummary(count);
    }

    /** `update_summary` (js/checklist.js:239-241): writes the summary region
        if there is one. */
    method UpdateSummary(n: int)
      modifies this`summary
      ensures summary == if old(summary).Some? then Some(SummaryText(n)) else None
    {
      if summary.Some? {
        summary := Some(SummaryText(n));
      }
    }

    /** `check_replace_oncheck` (js/checklist.js:222-233): reads the count,
        hands it to the caller's function if there is one, and shows it. */
    method OnCheck()
      requires toggles.Valid() && summary.Some? == hasSummary
      modifies this`summary, this`delivered
      ensures summary == if hasSummary then Some(SummaryText(toggles.checkedCount)) else None
      ensures delivered == old(delivered) + if hasCallback then [toggles.checkedCount] else []
    {
      var num := toggles.GetCheckedCount();
      if hasCallback {
        delivered := delivered + [num];
      }
      UpdateSummary(num);
    }

    /** A click on the label of row `i`: flips the row unless the checklist
        is read-only, and then notifies once. */
    method ClickLabel(i: nat) returns (fired: nat)
      requires Valid()
      modifies this, toggles
      ensures Valid()
      ensures fired == if !readonly && i < |old(toggles.items)| then 1 else 0
      ensures fired == 0 ==> toggles.items == old(toggles.items) && toggles.checkedCount == old(toggles.checkedCount)
      ensures fired == 1 ==>
        toggles.items == old(toggles.items)[i := Toggled(old(toggles.items)[i])] &&
        toggles.checkedCount == old(toggles.checkedCount) + Delta(old(toggles.items)[i])
      ensures fired == 1 ==>
        toggles.notified == old(toggles.notified) + [toggles.checkedCount] &&
        delivered == old(delivered) + (if hasCallback then [toggles.checkedCount] else [])
      ensures fired == 0 ==> unchanged(toggles) && summary == old(summary) && delivered == old(delivered)
    {
      fired := toggles.Click(i);
      RowsOfSameLabels(old(toggles.items), toggles.items);
      if fired > 0 {
        OnCheck();
      }
    }

    /** The footer's All link (js/checklist.js:297-301): `check_all(false)`,
        which checks the labels of the rows the filter has attached. */
    method FooterAll()
      requires Valid()
      modifies this, toggles
      ensures Valid()
      ensures hasFooter ==>
        toggles.items == AllChecked(old(toggles.items), ShownIds(filter.visible)) &&
        toggles.checkedCount == CountShown(ShownIds(filter.visible), |toggles.items|) &&
        toggles.notified == old(toggles.notified) + [toggles.checkedCount] &&
        delivered == old(delivered) + (if hasCallback then [toggles.checkedCount] else [])
      ensures !hasFooter ==> unchanged(toggles) && summary == old(summary) && delivered == old(delivered)
    {
      if hasFooter {
        toggles.CheckAll(false, ShownIds(filter.visible));
        RowsOfSameLabels(old(toggles.items), toggles.items);
        OnCheck();
      }
    }

    /** The footer's None link (js/checklist.js:302-306): `check_none()`. */
    method FooterNone()
      requires Valid()
      modifies this, toggles
      ensures Valid()
      ensures hasFooter ==>
        toggles.items == NoneChecked(old(toggles.items)) && toggles.checkedCount == 0 &&
        CountChecked(toggles.items) == 0 &&
        summary == (if hasSummary then Some(SummaryText(0)) else None) &&
        toggles.notified == old(toggles.notified) + [0] &&
        delivered == old(delivered) + (if hasCallback then [0] else [])
      ensures !hasFooter ==> unchanged(toggles) && summary == old(summary) && delivered == old(delivered)
    {
      if hasFooter {
        toggles.CheckNone();
        RowsOfSameLabels(old(toggles.items), toggles.items);
        NoneCheckedCountsZero(old(toggles.items));
        OnCheck();
      }
    }

    /** `set_checked` (js/checklist.js:158-160): handed to the replacer. */
    method SetChecked(arr: seq<string>)
      requires Valid()
      modifies this, toggles
      ensures Valid()
      ensures toggles.items == CheckedFrom(old(toggles.items), arr)
      ensures toggles.checkedCount == SumOccurrences(old(toggles.items), arr)
      ensures toggles.notified == old(toggles.notified) + [toggles.checkedCount]
      ensures summary == if hasSummary then Some(SummaryText(toggles.checkedCount)) else None
      ensures delivered == old(delivered) + if hasCallback then [toggles.checkedCount] else []
    {
      toggles.SetChecked(arr);
      RowsOfSameLabels(old(toggles.items), toggles.items);
      OnCheck();
    }

    /** `get_num_checked` (js/checklist.js:150-152). */
    method GetNumChecked() returns (n: int)
      ensures n == toggles.checkedCount
    {
      n := toggles.GetCheckedCount();
    }

    /** `clear_filter` (js/checklist.js:134-136). */
    method ClearFilter()
      requires Valid()
      modifies filter
      ensures Valid() && filter.visible == filter.items && filter.box == ""
    {
      filter.ClearSearch();
    }

    /** `get_checked` (js/checklist.js:141-144): clears the filter first, so
        the values of every checked row are read, not only of attached ones. */
    method GetChecked() returns (values: seq<string>)
      requires Valid()
      modifies filter
      ensures Valid() && filter.visible == filter.items && filter.box == ""
      ensures values == CheckedValues(toggles.items)
    {
      filter.ClearSearch();
      values := CheckedValues(toggles.items);
    }

    /** A key-up in the search box. Rows are keyed on their label, which is
        always defined, so the search never throws. */
    method SearchKeyUp(which: int, boxValue: string)
      requires Valid() && Literal(boxValue)
      modifies filter
      ensures Valid()
      ensures !hasSearch || which == 16 ==> filter.visible == old(filter.visible)
      ensures hasSearch && which != 16 ==>
        SearchOutcome(filter.items, boxValue, "label").Success? &&
        filter.visible == SearchOutcome(filter.items, boxValue, "label").value
      ensures hasSearch ==> filter.box == boxValue
      ensures !hasSearch ==> unchanged(filter)
    {
      if hasSearch {
        MatchingThrowsIff(filter.items, boxValue, "label");
        var _ := filter.KeyUp(which, boxValue);
      }
    }

    /** `bubble_checked` (js/checklist.js:165-180): the attached rows are
        detached, then those whose label is checked are appended, then those
        whose label is unchecked. */
    method BubbleChecked()
      requires Valid()
      modifies filter`visible
      ensures Valid()
      ensures filter.visible == Bubble(old(filter.visible), Marks(toggles.items))
      ensures multiset(filter.visible) == multiset(old(filter.visible))
    {
      var marks := Marks(toggles.items);
      var all := filter.visible;
      var ul: seq<Element> := [];
      var k := 0;
      while k < |all|
        invariant 0 <= k <= |all| && ul == WithMark(all[..k], marks, On)
      {
        WithMarkStep(all, k, marks, On);
        if MarkAt(marks, all[k].id) == On {
          ul := ul + [all[k]];
        }
        k := k + 1;
      }
      assert all[..k] == all;
      k := 0;
      var checked := ul;
      while k < |all|
        invariant 0 <= k <= |all| && ul == checked + WithMark(all[..k], marks, Off)
      {
        WithMarkStep(all, k, marks, Off);
        if MarkAt(marks, all[k].id) == Off {
          ul := ul + [all[k]];
        }
        k := k + 1;
      }
      assert all[..k] == all;
      WithMarkKeeps(all, marks, On);
      WithMarkKeeps(all, marks, Off);
      AttachedRowsAreMarked(toggles.items, all);
      BubbleIsPermutation(all, marks);
      filter.visible := ul;
    }
  }
}
