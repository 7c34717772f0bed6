/** The checkbox replacer: every label of a container stands for the checkbox
    that follows it. Clicking a label flips the checkbox and the label's class,
    bulk operations check or uncheck many labels, and a separately maintained
    counter `checkedCount` is kept beside the checkboxes. The counter is updated
    by increments and resets, not recomputed, so the lemmas below say exactly
    when it agrees with the number of checked checkboxes. */
module CheckReplaceWidget {

  /** The class a label carries: the on class ('check'), the off class
      ('uncheck') or neither (a label the replacer has not touched yet). */
  datatype Mark = Unmarked | On | Off

  /** One label of the container together with the checkbox right after it.
      `hasCheckClass`: that checkbox carries the replacer's check class. */
  datatype Item = Item(value: string, caption: string, hasCheckClass: bool, checked: bool, mark: Mark)

  /** The label class that shows a checkbox state. */
  function MarkFor(checked: bool): Mark
  {
    if checked then On else Off
  }

  /** A label whose checkbox has the check class shows the state of its checkbox. */
  predicate InSync(item: Item)
  {
    item.hasCheckClass ==> item.mark == MarkFor(item.checked)
  }

  predicate AllInSync(items: seq<Item>)
  {
    forall i :: 0 <= i < |items| ==> InSync(items[i])
  }

  /** Same labels, values and checkboxes, position by position; only the
      checked states and the label classes may differ. */
  predicate SameLabels(a: seq<Item>, b: seq<Item>)
  {
    |a| == |b| &&
    forall i :: 0 <= i < |a| ==>
      a[i].value == b[i].value && a[i].caption == b[i].caption && a[i].hasCheckClass == b[i].hasCheckClass
  }

  /** Checks or unchecks the checkbox and gives the label the matching class. */
  function SetState(item: Item, on: bool): Item
  {
    item.(checked := on, mark := MarkFor(on))
  }

  /** A label click: the checkbox flips; the label loses the on class if it
      had it and gains it otherwise. */
  function Toggled(item: Item): Item
  {
    item.(checked := !item.checked, mark := if item.mark == On then Off else On)
  }

  /** What one click adds to the counter. */
  function Delta(item: Item): int
  {
    if item.checked then -1 else 1
  }

  // ---------------------------------------------------------------------
  // Counting

  function CountChecked(items: seq<Item>): nat
  {
    if items == [] then 0
    else CountChecked(items[..|items| - 1]) + (if items[|items| - 1].checked then 1 else 0)
  }

  /** Checked checkboxes that carry the check class: what wiring counts. */
  function CountReplaceableChecked(items: seq<Item>): nat
  {
    if items == [] then 0
    else
      var last := items[|items| - 1];
      CountReplaceableChecked(items[..|items| - 1]) + (if last.hasCheckClass && last.checked then 1 else 0)
  }

  /** How many of the label positions 0 .. n-1 are visible. */
  function CountShown(shown: set<nat>, n: nat): nat
  {
    if n == 0 then 0 else CountShown(shown, n - 1) + (if n - 1 in shown then 1 else 0)
  }

  /** Checked checkboxes whose label is hidden. */
  function CountHiddenChecked(items: seq<Item>, shown: set<nat>): nat
  {
    if items == [] then 0
    else
      var n := |items| - 1;
      CountHiddenChecked(items[..n], shown) + (if n !in shown && items[n].checked then 1 else 0)
  }

  /** How many entries of `arr` equal `v`. */
  function Occurrences(arr: seq<string>, v: string): nat
  {
    if arr == [] then 0
    else Occurrences(arr[..|arr| - 1], v) + (if arr[|arr| - 1] == v then 1 else 0)
  }

  /** What `set_checked` adds to the counter: one per (label, equal entry) pair. */
  function SumOccurrences(items: seq<Item>, arr: seq<string>): nat
  {
    if items == [] then 0
    else SumOccurrences(items[..|items| - 1], arr) + Occurrences(arr, items[|items| - 1].value)
  }

  predicate NoDuplicates(arr: seq<string>)
  {
    forall i, j :: 0 <= i < j < |arr| ==> arr[i] != arr[j]
  }

  // ---------------------------------------------------------------------
  // The state each operation leaves behind

  /** Wiring: each label whose checkbox has the check class takes the class of its checkbox's state. */
  function Wired(labels: seq<Item>): (r: seq<Item>)
    ensures SameLabels(labels, r)
    ensures forall i :: 0 <= i < |labels| ==>
      r[i] == if labels[i].hasCheckClass then SetState(labels[i], labels[i].checked) else labels[i]
  {
    if labels == [] then []
    else
      var n := |labels| - 1;
      Wired(labels[..n]) + [if labels[n].hasCheckClass then SetState(labels[n], labels[n].checked) else labels[n]]
  }

  /** `check_all`: the visible labels are checked, the hidden ones keep their state. */
  function AllChecked(items: seq<Item>, shown: set<nat>): (r: seq<Item>)
    ensures SameLabels(items, r)
    ensures forall i :: 0 <= i < |items| ==> r[i] == if i in shown then SetState(items[i], true) else items[i]
  {
    if items == [] then []
    else
      var n := |items| - 1;
      AllChecked(items[..n], shown) + [if n in shown then SetState(items[n], true) else items[n]]
  }

  /** `check_none`: every label is unchecked. */
  function NoneChecked(items: seq<Item>): (r: seq<Item>)
    ensures SameLabels(items, r)
    ensures forall i :: 0 <= i < |items| ==> r[i] == SetState(items[i], false)
  {
    if items == [] then [] else NoneChecked(items[..|items| - 1]) + [SetState(items[|items| - 1], false)]
  }

  /** `set_checked(arr)`: a label is checked exactly when its value is an entry of `arr`. */
  function CheckedFrom(items: seq<Item>, arr: seq<string>): (r: seq<Item>)
    ensures SameLabels(items, r)
    ensures forall i :: 0 <= i < |items| ==> r[i] == SetState(items[i], items[i].value in arr)
  {
    if items == [] then []
    else
      var n := |items| - 1;
      CheckedFrom(items[..n], arr) + [SetState(items[n], items[n].value in arr)]
  }

  /** The counts passed to the change notification by `k` handlers that each
      click the same label: the first sees `a`, the second `b`, and so on. */
  function Alternating(a: int, b: int, k: nat): (r: seq<int>)
    ensures |r| == k
    ensures forall j :: 0 <= j < k ==> r[j] == if j % 2 == 0 then a else b
  {
    if k == 0 then [] else Alternating(a, b, k - 1) + [if (k - 1) % 2 == 0 then a else b]
  }

  // ---------------------------------------------------------------------
  // The widget

  class CheckReplace {
    /** The labels of the container, in document order. */
    var items: seq<Item>
    /** The counter the widget keeps and reports through `get_checked_count`. */
    var checkedCount: int
    /** The container carries the none class. */
    var noneChecked: bool
    const readonly: bool
    /** How many click handlers each label with a check-class checkbox carries. */
    var handlers: nat
    /** One entry per call of the change notification: the count the
        notified party reads from the widget at that moment. */
    var notified: seq<int>

    ghost predicate Valid()
      reads this
    {
      AllInSync(items) && (readonly ==> handlers == 0)
    }

    /** Wiring (js/checkreplace.js:63-72, 158-184): each label whose checkbox
        has the check class shows its checkbox's state, each checked one adds 1 to the counter,
        and unless the widget is read-only each gets one click handler. */
    constructor (labels: seq<Item>, readonly: bool)
      ensures Valid() && this.readonly == readonly
      ensures items == Wired(labels)
      ensures checkedCount == CountReplaceableChecked(labels)
      ensures noneChecked == (checkedCount <= 0)
      ensures handlers == (if readonly then 0 else 1)
      ensures notified == []
    {
      var wired := labels;
      var count := 0;
      var i := 0;
      while i < |labels|
        invariant 0 <= i <= |labels| && |wired| == |labels|
        invariant forall k :: 0 <= k < i ==> wired[k] == Wired(labels)[k]
        invariant forall k :: i <= k < |labels| ==> wired[k] == labels[k]
        invariant count == CountReplaceableChecked(labels[..i])
      {
        var entry := labels[i];
        if entry.hasCheckClass {
          if entry.checked {
            count := count + 1;
            entry := SetState(entry, true);
          } else {
            entry := SetState(entry, false);
          }
        }
        wired := wired[i := entry];
        assert labels[..i + 1][..i] == labels[..i];
        i := i + 1;
      }
      assert labels[..i] == labels;
      this.readonly := readonly;
      items := wired;
      checkedCount := count;
      handlers := if readonly then 0 else 1;
      notified := [];
      noneChecked := count <= 0;
    }

    /** `check_all(visible_only)` (js/checkreplace.js:88-106). The guard
        `typeof(visible_only == 'undefined')` is a non-empty string and so
        always true: whatever the argument, only visible labels are checked,
        and the counter becomes the number of visible labels. */
    method CheckAll(visibleOnly: bool, shown: set<nat>)
      requires Valid()
      modifies this
      ensures Valid() && handlers == old(handlers)
      ensures items == AllChecked(old(items), shown)
      ensures checkedCount == CountShown(shown, |items|)
      ensures noneChecked == (checkedCount <= 0)
      ensures notified == old(notified) + [checkedCount]
    {
      var onlyVisible := visibleOnly;
      onlyVisible := true;
      var labels, count := items, 0;
      var shouldCheck := true;
      var i := 0;
      while i < |labels|
        invariant 0 <= i <= |labels| == |items|
        invariant forall k :: 0 <= k < i ==> labels[k] == AllChecked(items, shown)[k]
        invariant forall k :: i <= k < |labels| ==> labels[k] == items[k]
        invariant count == CountShown(shown, i)
      {
        if onlyVisible {
          shouldCheck := i in shown;
        }
        if shouldCheck {
          count := count + 1;
          labels := labels[i := SetState(labels[i], true)];
        }
        i := i + 1;
      }
      items, checkedCount := labels, count;
      noneChecked := checkedCount <= 0;
      notified := notified + [checkedCount];
    }

    /** `check_none` (js/checkreplace.js:111-119). */
    method CheckNone()
      requires Valid()
      modifies this
      ensures Valid() && handlers == old(handlers)
      ensures items == NoneChecked(old(items))
      ensures checkedCount == 0 && noneChecked
      ensures notified == old(notified) + [0]
    {
      var labels := items;
      var i := 0;
      while i < |labels|
        invariant 0 <= i <= |labels| == |items|
        invariant forall k :: 0 <= k < i ==> labels[k] == SetState(items[k], false)
        invariant forall k :: i <= k < |labels| ==> labels[k] == items[k]
      {
        labels := labels[i := SetState(labels[i], false)];
        i := i + 1;
      }
      items, checkedCount := labels, 0;
      noneChecked := checkedCount <= 0;
      notified := notified + [checkedCount];
    }

    /** `set_checked(arr)` (js/checkreplace.js:126-144): every label is first
        unchecked, then checked again, and the counter incremented, once for
        every entry of `arr` equal to its value. */
    method SetChecked(arr: seq<string>)
      requires Valid()
      modifies this
      ensures Valid() && handlers == old(handlers)
      ensures items == CheckedFrom(old(items), arr)
      ensures checkedCount == SumOccurrences(old(items), arr)
      ensures noneChecked == (checkedCount <= 0)
      ensures notified == old(notified) + [checkedCount]
    {
      var labels, count := items, 0;
      var i := 0;
      while i < |labels|
        invariant 0 <= i <= |labels| == |items|
        invariant forall k :: 0 <= k < i ==> labels[k] == SetState(items[k], items[k].value in arr)
        invariant forall k :: i <= k < |labels| ==> labels[k] == items[k]
        invariant count == SumOccurrences(items[..i], arr)
      {
        var entry := SetState(labels[i], false);
        var x := 0;
        while x < |arr|
          invariant 0 <= x <= |arr|
          invariant entry == SetState(items[i], items[i].value in arr[..x])
          invariant count == SumOccurrences(items[..i], arr) + Occurrences(arr[..x], items[i].value)
        {
          assert arr[..x + 1][..x] == arr[..x];
          if entry.value == arr[x] {
            count := count + 1;
            entry := SetState(entry, true);
          }
          x := x + 1;
        }
        assert arr[..x] == arr;
        assert items[..i + 1][..i] == items[..i];
        labels := labels[i := entry];
        i := i + 1;
      }
      assert items[..i] == items;
      items, checkedCount := labels, count;
      noneChecked := checkedCount <= 0;
      notified := notified + [checkedCount];
    }

    /** `get_checked_count` (js/checkreplace.js:150-152): reads the counter. */
    method GetCheckedCount() returns (n: int)
      ensures n == checkedCount
    {
      n := checkedCount;
    }

    /** A click on label `i` (js/checkreplace.js:173-181, 212-235). Every
        handler on the label flips the checkbox, moves the counter by one,
        flips the label class, refreshes the none class and notifies. A
        label whose checkbox lacks the check class, or any label of a
        read-only widget, has no handler and nothing happens. Returns how many handlers ran. */
    method Click(i: nat) returns (fired: nat)
      requires Valid()
      modifies this
      ensures Valid() && handlers == old(handlers)
      ensures fired == if i < |old(items)| && old(items)[i].hasCheckClass then handlers else 0
      ensures readonly ==> fired == 0
      ensures fired % 2 == 0 ==> items == old(items) && checkedCount == old(checkedCount)
      ensures fired % 2 == 1 ==>
        items == old(items)[i := Toggled(old(items)[i])] &&
        checkedCount == old(checkedCount) + Delta(old(items)[i])
      ensures fired == 0 ==> unchanged(this)
      ensures fired > 0 ==>
        noneChecked == (checkedCount <= 0) &&
        notified == old(notified) + Alternating(old(checkedCount) + Delta(old(items)[i]), old(checkedCount), fired)
    {
      fired := 0;
      if i < |items| && items[i].hasCheckClass && handlers > 0 {
        var labels, count, none, calls := items, checkedCount, noneChecked, notified;
        while fired < handlers
          invariant 0 <= fired <= handlers
          invariant fired % 2 == 0 ==> labels == items && count == checkedCount
          invariant fired % 2 == 1 ==> labels == items[i := Toggled(items[i])] && count == checkedCount + Delta(items[i])
          invariant fired == 0 ==> none == noneChecked && calls == notified
          invariant fired > 0 ==> none == (count <= 0)
          invariant calls == notified + Alternating(checkedCount + Delta(items[i]), checkedCount, fired)
        {
          // toggle_checkbox
          var entry := labels[i].(checked := !labels[i].checked);
          if entry.checked {
            count := count + 1;
          } else {
            count := count - 1;
          }
          // toggle_label
          entry := entry.(mark := if entry.mark == On then Off else On);
          labels := labels[i := entry];
          none := count <= 0;
          calls := calls + [count];
          fired := fired + 1;
        }
        items, checkedCount, noneChecked, notified := labels, count, none, calls;
      }
    }

    /** `rewire` of the bundled copy (js/jq-checklist.js:406-408, 440-471):
        wiring runs again without resetting the counter, so every checked
        checkbox with the check class is counted once more, and each of their
        labels gets one more click handler. It refreshes neither the none class nor
        notifies. */
    method Rewire()
      requires Valid()
      modifies this
      ensures Valid()
      ensures items == old(items)
      ensures checkedCount == old(checkedCount) + CountReplaceableChecked(items)
      ensures handlers == old(handlers) + (if readonly then 0 else 1)
      ensures noneChecked == old(noneChecked) && notified == old(notified)
    {
      var labels, count := items, checkedCount;
      var i := 0;
      while i < |labels|
        invariant 0 <= i <= |labels| && labels == items
        invariant count == checkedCount + CountReplaceableChecked(items[..i])
      {
        var entry := labels[i];
        if entry.hasCheckClass {
          if entry.checked {
            count := count + 1;
            entry := SetState(entry, true);
          } else {
            entry := SetState(entry, false);
          }
        }
        assert InSync(labels[i]);
        labels := labels[i := entry];
        assert items[..i + 1][..i] == items[..i];
        i := i + 1;
      }
      assert items[..i] == items;
      items, checkedCount := labels, count;
      if !readonly {
        handlers := handlers + 1;
      }
    }
  }

  // ---------------------------------------------------------------------
  // What the counter means

  lemma {:induction false} CountCheckedUpdate(items: seq<Item>, i: nat, x: Item)
    requires i < |items|
    ensures CountChecked(items[i := x]) ==
      CountChecked(items) - (if items[i].checked then 1 else 0) + (if x.checked then 1 else 0)
    decreases |items|
  {
    var n := |items| - 1;
    if i < n {
      assert items[i := x][..n] == items[..n][i := x];
      CountCheckedUpdate(items[..n], i, x);
    } else {
      assert items[i := x][..n] == items[..n];
    }
  }

  /** A click moves the counter by one in the direction the checkbox moved,
      so a counter equal to the number of checked checkboxes stays equal. */
  lemma ClickKeepsCount(items: seq<Item>, count: int, i: nat)
    requires i < |items| && count == CountChecked(items)
    ensures count + Delta(items[i]) == CountChecked(items[i := Toggled(items[i])])
  {
    CountCheckedUpdate(items, i, Toggled(items[i]));
  }

  /** Two clicks on a label with a check-class checkbox undo each other. */
  lemma {:induction false} ClickTwiceIsIdentity(item: Item)
    requires item.hasCheckClass && InSync(item)
    ensures Toggled(Toggled(item)) == item && InSync(Toggled(item))
  {
    if item.checked {
      assert item.mark == On;
    } else {
      assert item.mark == Off;
    }
  }

  lemma {:induction false} NoneCheckedCountsZero(items: seq<Item>)
    ensures CountChecked(NoneChecked(items)) == 0
    ensures forall i :: 0 <= i < |items| ==> !NoneChecked(items)[i].checked && NoneChecked(items)[i].mark == Off
    decreases |items|
  {
    if items != [] {
      var n := |items| - 1;
      NoneCheckedCountsZero(items[..n]);
      assert NoneChecked(items)[..n] == NoneChecked(items[..n]);
    }
  }

  /** After `check_all` the number of checked checkboxes is the counter
      (the visible labels) plus the hidden labels that were already checked. */
  lemma {:induction false} CheckAllCount(items: seq<Item>, shown: set<nat>)
    ensures CountChecked(AllChecked(items, shown)) == CountShown(shown, |items|) + CountHiddenChecked(items, shown)
    decreases |items|
  {
    if items != [] {
      var n := |items| - 1;
      CheckAllCount(items[..n], shown);
      assert AllChecked(items, shown)[..n] == AllChecked(items[..n], shown);
    }
  }

  lemma {:induction false} NoHiddenChecked(items: seq<Item>, shown: set<nat>)
    ensures CountHiddenChecked(items, shown) == 0 <==>
      forall i :: 0 <= i < |items| && i !in shown ==> !items[i].checked
    decreases |items|
  {
    if items != [] {
      var n := |items| - 1;
      NoHiddenChecked(items[..n], shown);
      assert forall i :: 0 <= i < n ==> items[..n][i] == items[i];
    }
  }

  /** `check_all` leaves the counter equal to the number of checked
      checkboxes exactly when no hidden label was already checked. */
  lemma CheckAllCountMatchesIff(items: seq<Item>, shown: set<nat>)
    ensures CountShown(shown, |items|) == CountChecked(AllChecked(items, shown)) <==>
      forall i :: 0 <= i < |items| && i !in shown ==> !items[i].checked
  {
    CheckAllCount(items, shown);
    NoHiddenChecked(items, shown);
  }

  lemma {:induction false} OccurrencesPositive(arr: seq<string>, v: string)
    ensures Occurrences(arr, v) > 0 <==> v in arr
    decreases |arr|
  {
    if arr != [] {
      var n := |arr| - 1;
      OccurrencesPositive(arr[..n], v);
      assert arr == arr[..n] + [arr[n]];
    }
  }

  lemma {:induction false} OccurrencesAtMostOnce(arr: seq<string>, v: string)
    requires NoDuplicates(arr)
    ensures Occurrences(arr, v) <= 1
    decreases |arr|
  {
    if arr != [] {
      var n := |arr| - 1;
      OccurrencesAtMostOnce(arr[..n], v);
      if arr[n] == v {
        OccurrencesPositive(arr[..n], v);
      }
    }
  }

  lemma {:induction false} SetCheckedCountCompare(items: seq<Item>, arr: seq<string>)
    ensures SumOccurrences(items, arr) >= CountChecked(CheckedFrom(items, arr))
    ensures SumOccurrences(items, arr) == CountChecked(CheckedFrom(items, arr)) <==>
      forall i :: 0 <= i < |items| ==> Occurrences(arr, items[i].value) <= 1
    decreases |items|
  {
    if items != [] {
      var n := |items| - 1;
      SetCheckedCountCompare(items[..n], arr);
      assert CheckedFrom(items, arr)[..n] == CheckedFrom(items[..n], arr);
      OccurrencesPositive(arr, items[n].value);
      assert forall i :: 0 <= i < n ==> items[..n][i] == items[i];
    }
  }

  /** `set_checked(arr)` leaves the counter equal to the number of checked
      checkboxes exactly when no label's value occurs twice in `arr`; when
      one does, the counter is too high. */
  lemma SetCheckedCountMatchesIff(items: seq<Item>, arr: seq<string>)
    ensures SumOccurrences(items, arr) == CountChecked(CheckedFrom(items, arr)) <==>
      forall i :: 0 <= i < |items| ==> Occurrences(arr, items[i].value) <= 1
    ensures SumOccurrences(items, arr) != CountChecked(CheckedFrom(items, arr)) ==>
      SumOccurrences(items, arr) > CountChecked(CheckedFrom(items, arr))
  {
    SetCheckedCountCompare(items, arr);
  }

  /** An argument without repeated entries keeps the counter exact. */
  lemma SetCheckedDistinctIsExact(items: seq<Item>, arr: seq<string>)
    requires NoDuplicates(arr)
    ensures SumOccurrences(items, arr) == CountChecked(CheckedFrom(items, arr))
  {
    forall i | 0 <= i < |items|
      ensures Occurrences(arr, items[i].value) <= 1
    {
      OccurrencesAtMostOnce(arr, items[i].value);
    }
    SetCheckedCountCompare(items, arr);
  }

  /** The states `set_checked(arr)` leaves depend only on the labels' values
      and `arr`, not on the states before; in particular a second call with
      the same argument changes nothing. */
  lemma SetCheckedForgetsHistory(a: seq<Item>, b: seq<Item>, arr: seq<string>)
    requires SameLabels(a, b)
    ensures CheckedFrom(a, arr) == CheckedFrom(b, arr)
    ensures CheckedFrom(CheckedFrom(a, arr), arr) == CheckedFrom(a, arr)
  {
    var ra, rb, rr := CheckedFrom(a, arr), CheckedFrom(b, arr), CheckedFrom(CheckedFrom(a, arr), arr);
    forall i | 0 <= i < |a|
      ensures ra[i] == rb[i] && rr[i] == ra[i]
    {
      assert a[i].value == b[i].value && a[i].caption == b[i].caption && a[i].hasCheckClass == b[i].hasCheckClass;
    }
  }

  lemma {:induction false} WiredKeepsStates(labels: seq<Item>)
    ensures CountChecked(Wired(labels)) == CountChecked(labels)
    decreases |labels|
  {
    if labels != [] {
      var n := |labels| - 1;
      WiredKeepsStates(labels[..n]);
      assert Wired(labels)[..n] == Wired(labels[..n]);
    }
  }

  lemma {:induction false} ReplaceableCountBound(labels: seq<Item>)
    ensures CountReplaceableChecked(labels) <= CountChecked(labels)
    ensures CountReplaceableChecked(labels) == CountChecked(labels) <==>
      forall i :: 0 <= i < |labels| && !labels[i].hasCheckClass ==> !labels[i].checked
    decreases |labels|
  {
    if labels != [] {
      var n := |labels| - 1;
      ReplaceableCountBound(labels[..n]);
      assert forall i :: 0 <= i < n ==> labels[..n][i] == labels[i];
    }
  }

  /** Wiring starts the counter at the number of checked checkboxes exactly
      when every checked checkbox carries the check class. */
  lemma InitialCountMatchesIff(labels: seq<Item>)
    ensures CountReplaceableChecked(labels) == CountChecked(Wired(labels)) <==>
      forall i :: 0 <= i < |labels| && !labels[i].hasCheckClass ==> !labels[i].checked
  {
    WiredKeepsStates(labels);
    ReplaceableCountBound(labels);
  }
}
