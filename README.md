# jq-checklist in Dafny

This project models jq-checklist, a set of three small jQuery widgets, with the
DOM reduced to sequences of records.

- **CheckReplace** (`checkreplace.dfy`, module `CheckReplaceWidget`) stands a
  label in for each checkbox.
  - Each label carries a class: on (`check`), off (`uncheck`) or neither.
  - Each checkbox has a checked state.
  - The widget keeps a separate counter `checked_count` and a "none" class on
    its container.
  - A label click flips its checkbox. `check_all`, `check_none` and
    `set_checked` change many labels at once.
  - After each operation the widget notifies its owner.
- **ItemFilter** (`itemfilter.dfy`, module `ItemFilterWidget`) filters a fixed
  set of elements by a search box. It rebuilds the attached elements from
  scratch on every search, keyed on an element's value attribute, text or
  first label.
- **Checklist** (`checklist.dfy`, module `ChecklistWidget`) turns checkboxes
  into labelled rows. It runs CheckReplace over the rows and ItemFilter over
  them keyed on labels. It also keeps a `"<n> selected"` summary, a footer with
  All and None links, and `bubble_checked`, which moves the checked rows to the
  top.

`text.dfy` holds ASCII case folding, case-insensitive prefix comparison, and
the decimal rendering of a number with its parser. `common.dfy` holds `Option`
and `Result`.

`js/jq-checklist.js` is the older bundled copy of all three widgets. Its logic
is modelled once, and the rows below cite both copies where they differ only in
surface. The one operation found only there, `rewire`, is modelled as
`CheckReplace.Rewire`.

Each widget state that the source changes in place is a class field:

- the labels and checkboxes: `items`;
- the counter: `checkedCount`;
- the none class: `noneChecked`;
- the attached elements of the filter: `visible`;
- the summary text: `summary`.

The loops that update widget state (wiring, `check_all`, `check_none`,
`set_checked`, a click's handlers, `search`, `build_list`'s appends,
`bubble_checked`) are method loops. Each result is tied to a specification
function: `Wired`, `AllChecked`, `NoneChecked`, `CheckedFrom`,
`Matching`, `Bubble`. The lemmas about those functions state what the counter
means.

Visibility of a label is a layout query in the browser. Here it is a
parameter: the set of label positions whose row the filter has attached.

The counter is maintained by increments and resets, never recomputed. So "the
counter equals the number of checked checkboxes" is not an invariant of the
code. The lemmas state exactly when it holds.

- A click keeps it.
- `check_none` restores it.
- `check_all` keeps it only when no hidden label was already checked.
- `set_checked(arr)` keeps it only when no label's value occurs twice in
  `arr`. Otherwise the counter is too high.
- Wiring starts it right only when every checked checkbox carries the check
  class.

Two of the source's own comments promise more than its code does, and the model
follows the code:

- `check_all`'s comment documents `visible_only` as "don't check hidden
  checkboxes" (js/checkreplace.js:86), so `check_all(false)` should check every
  label. The guard `typeof(visible_only == 'undefined')` is a non-empty string,
  so it is always true, and every call is visible-only (js/checkreplace.js:89;
  js/jq-checklist.js:377).
- `get_checked_count` is documented to "Return the number of checked
  checkboxes" (js/checkreplace.js:147). It returns the maintained counter,
  which `set_checked` raises once per matching entry (js/checkreplace.js:134-139)
  and `check_all` sets to the number of visible labels. The lemmas above say
  when the two agree.

## Model

| member | source | states |
|---|---|---|
| Text.IntToStringRoundTrip | js/checklist.js:240 | the decimal text that concatenation `checked_count + ' selected'` produces reads back as the same integer, negative counts included |
| CheckReplaceWidget.Wired | js/checkreplace.js:158-171 | wiring keeps every label and checkbox. A label whose checkbox has the check class takes the class of that checkbox's state; other labels are untouched (same in js/jq-checklist.js:440-471) |
| CheckReplaceWidget.AllChecked | js/checkreplace.js:94-102 | `check_all`: labels at visible positions are checked and get the on class. Hidden ones keep their state |
| CheckReplaceWidget.NoneChecked | js/checkreplace.js:111-116 | `check_none`: every checkbox is unchecked and every label gets the off class |
| CheckReplaceWidget.CheckedFrom | js/checkreplace.js:126-141 | `set_checked(arr)`: a checkbox is checked and its label on exactly when its value is an entry of `arr` |
| CheckReplaceWidget.Alternating | js/jq-checklist.js:459-467 | the counts seen by successive click handlers on one label alternate between the flipped and the original count. A label gets more than one handler only through `rewire` (js/jq-checklist.js:406-408) |
| CheckReplaceWidget.CheckReplace.constructor | js/checkreplace.js:63-72 | wiring: the labels are `Wired`, and the counter is the number of checked checkboxes with the check class. The none class is set iff the counter is at most 0. One handler per label unless read-only, and no notification |
| CheckReplaceWidget.CheckReplace.CheckAll | js/checkreplace.js:88-106 | whatever the argument, visible labels are checked and the counter becomes the number of visible labels. The none class follows the counter. Exactly one notification, carrying the new counter (same in js/jq-checklist.js:376-394) |
| CheckReplaceWidget.CheckReplace.CheckNone | js/checkreplace.js:111-119 | every label unchecked, counter 0, none class set, one notification with 0 (same in js/jq-checklist.js:396-404) |
| CheckReplaceWidget.CheckReplace.SetChecked | js/checkreplace.js:126-144 | labels become `CheckedFrom(arr)`. The counter becomes the number of (label, equal entry) pairs. The none class follows the counter. One notification (same in js/jq-checklist.js:415-433) |
| CheckReplaceWidget.CheckReplace.GetCheckedCount | js/checkreplace.js:150-152 | returns the counter and changes nothing |
| CheckReplaceWidget.CheckReplace.Click | js/checkreplace.js:173-235 | a click on a label whose checkbox has the check class runs each of its handlers. Each handler flips the checkbox and the label class, moves the counter by +1 if now checked and -1 if now unchecked, refreshes the none class and notifies once. Other labels, and every label of a read-only widget, have no handler and nothing changes (same in js/jq-checklist.js:499-518) |
| CheckReplaceWidget.CheckReplace.Rewire | js/jq-checklist.js:440-471 | `rewire` (js/jq-checklist.js:406-408) wires again without resetting the counter. The labels are unchanged and the counter grows by the checked checkboxes with the check class. Each such label gets one more handler. No none-class refresh and no notification |
| CheckReplaceWidget.CountCheckedUpdate | js/checkreplace.js:212-223 | replacing one item changes the number of checked items by exactly the difference in that item's state |
| CheckReplaceWidget.ClickKeepsCount | js/checkreplace.js:212-223 | a click's ±1 on a counter that equals the number of checked checkboxes gives the number checked afterwards |
| CheckReplaceWidget.ClickTwiceIsIdentity | js/checkreplace.js:212-235 | two clicks on a wired label restore the label and checkbox, and a click keeps the label class in step with the checkbox |
| CheckReplaceWidget.NoneCheckedCountsZero | js/checkreplace.js:111-119 | after `check_none` no checkbox is checked, so the counter 0 is exact |
| CheckReplaceWidget.CheckAllCount | js/checkreplace.js:88-103 | after `check_all`, the number checked is the counter (visible labels) plus the hidden labels that were already checked |
| CheckReplaceWidget.NoHiddenChecked | js/checkreplace.js:88-103 | no hidden checked labels exactly when every hidden checkbox is unchecked |
| CheckReplaceWidget.CheckAllCountMatchesIff | js/checkreplace.js:88-103 | `check_all` leaves the counter equal to the number checked iff no hidden checkbox was checked |
| CheckReplaceWidget.OccurrencesPositive | js/checkreplace.js:133-140 | the inner loop finds a label's value at least once iff the value is an entry of `arr` |
| CheckReplaceWidget.OccurrencesAtMostOnce | js/checkreplace.js:133-140 | with distinct entries the inner loop counts a label at most once |
| CheckReplaceWidget.SetCheckedCountCompare | js/checkreplace.js:126-141 | `set_checked`'s counter is never below the number checked. It is equal iff no label value occurs twice in `arr` |
| CheckReplaceWidget.SetCheckedCountMatchesIff | js/checkreplace.js:126-141 | the counter is exact iff no label value is repeated in `arr`, and otherwise over-counts |
| CheckReplaceWidget.SetCheckedDistinctIsExact | js/checkreplace.js:126-141 | an argument without repeated entries leaves the counter exact |
| CheckReplaceWidget.SetCheckedForgetsHistory | js/checkreplace.js:126-141 | the states `set_checked(arr)` leaves depend only on the values and `arr`. A second identical call changes nothing |
| CheckReplaceWidget.WiredKeepsStates | js/checkreplace.js:158-171 | wiring changes no checkbox state |
| CheckReplaceWidget.ReplaceableCountBound | js/checkreplace.js:158-171 | the initial counter is at most the number checked. It is equal iff no checked checkbox lacks the check class |
| CheckReplaceWidget.InitialCountMatchesIff | js/checkreplace.js:158-171 | the counter starts equal to the number of checked checkboxes iff every checked checkbox has the check class |
| ItemFilterWidget.GetValue | js/itemfilter.js:181-209 | the key is the value attribute, the text or the first label's text. Any other mode throws `'Cannot filter on ' + mode`. Only the value mode can give an undefined key, reading `attr('value')` as the attribute |
| ItemFilterWidget.UnescapeEscape | js/itemfilter.js:221 | doubling every backslash gives a pattern that stands for the query itself |
| ItemFilterWidget.PatternMatchesPrefix | js/itemfilter.js:221-228 | `^` plus the escaped query matches a key iff the key begins with the query, ignoring case. A backslash matches a backslash |
| ItemFilterWidget.Matching | js/itemfilter.js:225-231 | the search loop keeps at most the given elements and only elements from them |
| ItemFilterWidget.MatchingFailurePersists | js/itemfilter.js:225-231 | once the loop throws on one element, the search throws that and goes no further |
| ItemFilterWidget.MatchingSelectsPrefixMatches | js/itemfilter.js:221-232 | a search that completes keeps a subsequence of the elements in their original order. It keeps every element whose key begins with the query and no other (same in js/jq-checklist.js:725-742) |
| ItemFilterWidget.MatchingThrowsIff | js/itemfilter.js:181-228 | a non-empty search throws iff there is an element and either the mode is unknown or, in value mode, some element has no value attribute |
| ItemFilterWidget.UnknownModeThrows | js/itemfilter.js:204-205 | with an unknown mode the first element already throws the filter's own message |
| ItemFilterWidget.ItemFilter.constructor | js/itemfilter.js:116-121 | `init`: every element found is attached, in document order |
| ItemFilterWidget.ItemFilter.BuildList | js/itemfilter.js:164-172 | `build_list(arr)`: the attached elements become exactly `arr`, in order (same in js/jq-checklist.js:672-680) |
| ItemFilterWidget.ItemFilter.Search | js/itemfilter.js:217-234 | an empty query attaches every element in original order. Otherwise the result is the prefix matches, or what was thrown with nothing rebuilt. The result never depends on what was attached before, so repeating a search changes nothing |
| ItemFilterWidget.ItemFilter.KeyUp | js/itemfilter.js:148-152 | a key-up with code 16 (Shift) starts no search. Any other key searches for the box's text |
| ItemFilterWidget.ItemFilter.ClearSearch | js/itemfilter.js:125-128 | the box is emptied and every element re-attached in original order (same in js/jq-checklist.js:636-639) |
| ChecklistWidget.LabelOf | js/checklist.js:196-197 | a row's label is the `data-label`, unless it is absent or `.data` converts it to a falsy value (`""`, `"0"`, `"false"`, `"null"`, `"NaN"`); then it is the checkbox value (js/jq-checklist.js:204 falls back only when the metadata label is falsy as written; see "## Left out") |
| ChecklistWidget.Lines | js/checklist.js:189-216 | one row per checkbox: the checkbox gets the check class and keeps its value and state, with a fresh label before it |
| ChecklistWidget.LinesCountExactly | js/checklist.js:193 | every checkbox of a checklist gets the check class, so after wiring every label is a click target and the counter starts equal to the number of checked checkboxes |
| ChecklistWidget.Rows | js/checklist.js:189-216 | the list item of each row carries that row's label text as its first label |
| ChecklistWidget.SummaryCarriesCount | js/checklist.js:239-241 | the summary text `<n> selected` shows the count and reads back to it |
| ChecklistWidget.CheckedValuesAreTheChecked | js/checklist.js:141-144 | the checked values are one per checked checkbox, each the value of a checked checkbox, and every such value is among them |
| ChecklistWidget.WithMarkKeeps | js/checklist.js:168-179 | one pass of `bubble_checked` keeps only rows it was given, and only those whose label has that pass's class |
| ChecklistWidget.BubbleIsStable | js/checklist.js:165-180 | after `bubble_checked` the on rows are in their previous relative order, and so are the off rows (same in js/jq-checklist.js:171-186) |
| ChecklistWidget.BubbleCheckedFirst | js/checklist.js:165-180 | no off row comes before an on row |
| ChecklistWidget.BubbleDropsOnlyUnmarked | js/checklist.js:166-179 | the rows lost are exactly those whose label has neither class |
| ChecklistWidget.BubbleIsPermutation | js/checklist.js:166-179 | when every label has one of the two classes, the rows are rearranged and none is lost |
| ChecklistWidget.AttachedRowsAreMarked | js/checkreplace.js:163-171 | after wiring, every attached checklist row has a label in the on or off class |
| ChecklistWidget.Checklist.constructor | js/checklist.js:64-114 | summary and footer exist only when requested and not read-only. The replacer wires the rows; the summary shows its counter; the filter attaches every row keyed on labels; the none class is set iff the counter is at most 0; no callback has run |
| ChecklistWidget.Checklist.UpdateSummary | js/checklist.js:239-241 | writes `<n> selected` into the summary if there is one. Otherwise nothing |
| ChecklistWidget.Checklist.OnCheck | js/checklist.js:222-233 | reads the counter, passes it to the caller's `on_check` only if that is a function, and shows it in the summary (same in js/jq-checklist.js:228-242) |
| ChecklistWidget.Checklist.ClickLabel | js/checklist.js:94-97 | a label click flips its row unless read-only. The replacer then notifies once with the new counter, which reaches the caller's `on_check` if it is a function and the summary. The none class follows the counter. A read-only click, or one outside the rows, changes nothing |
| ChecklistWidget.Checklist.FooterAll | js/checklist.js:297-301 | with a footer, All checks the rows the filter has attached and the counter becomes their number. One notification reaches the callback and the summary, and the none class follows. Without a footer nothing changes |
| ChecklistWidget.Checklist.FooterNone | js/checklist.js:302-306 | with a footer, None unchecks every row and sets the counter to 0. One notification delivers 0 to the callback and the summary, and the none class is set. Without a footer nothing changes |
| ChecklistWidget.Checklist.SetChecked | js/checklist.js:158-160 | forwards to the replacer: the states become `CheckedFrom(arr)`, and the counter counts (label, equal entry) pairs. One notification delivers the counter to the callback and the summary, and the none class follows |
| ChecklistWidget.Checklist.GetNumChecked | js/checklist.js:150-152 | returns the replacer's counter |
| ChecklistWidget.Checklist.ClearFilter | js/checklist.js:134-136 | every row attached again, box emptied |
| ChecklistWidget.Checklist.GetChecked | js/checklist.js:141-144 | clears the filter first, then reads the values of all checked rows, hidden ones included |
| ChecklistWidget.Checklist.SearchKeyUp | js/checklist.js:110-114 | with a search box, a key-up filters the rows on their labels. Label mode never throws, and the box ends holding the typed text. Without a search box the filter is unchanged |
| ChecklistWidget.Checklist.BubbleChecked | js/checklist.js:165-180 | the attached rows become `Bubble` of them: on rows, then off rows. On a wired checklist this is a permutation |

## Left out

- `ItemFilterWidget.GetValue`: reads `attr('value')` as the attribute, which is
  how jQuery 1.9 and later behave, so an element without one has an undefined
  key and the search throws. The bundled copy (js/jq-checklist.js:656 uses
  `.live`) needs jQuery before 1.9, or jQuery Migrate. Both of those read the
  `value` property instead. There an `<option>` without the attribute is keyed
  on its text and throws nothing. The current copy behaves the same way under
  jQuery 1.7 and 1.8.
- `ChecklistWidget.FalsyData`: follows the `.data` conversion of jQuery 1.8
  and later. jQuery 1.7 kept `"NaN"` as a string, and it turned `"00"` and
  `"0.0"` into 0, which would then be falsy.
- Markup and styling:
  - frame, header, tips and titles;
  - the search box's `'search'` placeholder and its click and blur handlers;
  - colours;
  - the `readonly` container class.

  These are presentation, and the filter's box starts empty here.
- Labels with no checkbox after them are not modelled. Every label is paired
  with the next checkbox, which is assumed to exist.
- The browser's `:visible` query: visibility is a parameter. In the checklist
  it is the set of rows the filter has attached.
- Event dispatch, `preventDefault`, the `this` a callback is called with, and
  the API object passed to it. A notification is recorded as the count readable
  at that moment.
- The `attr` versus `prop` distinction for `checked`: one boolean.
- JavaScript's loose `==` in `set_checked`: values are compared as strings.
- The plugin machinery: `$.extend` option merging, `data` storage, the metadata
  plugin, `alert`, `live` versus `on`. Also the callback name `oncheck` (v1)
  versus `on_check` (current).
- CheckReplace's default `on_check: null` (js/checkreplace.js:46). Used
  standalone without a callback, it throws at the first notification. The model
  always records the notification.
- Regular-expression semantics beyond the query's backslash doubling:
  - `ItemFilterWidget.ItemFilter.Search` requires a query without other
    metacharacters;
  - so do `ItemFilterWidget.ItemFilter.KeyUp` and
    `ChecklistWidget.Checklist.SearchKeyUp`.

  Case-insensitivity is ASCII lowering only.
- The checklist passes `search: 'input'` to the filter (js/checklist.js:111),
  but the filter reads only `search_box`, whose default is `'input:text'`
  (js/itemfilter.js:83). The key-up handler is therefore bound to the text box
  alone, as in the model.
- `ItemFilterWidget.ItemFilter.BuildList`: assumes all items share one parent.
  `container = items.parent()` (js/itemfilter.js:119) can hold several parents,
  for example options inside optgroups. jQuery's `append` then clones each
  element into every parent but the last. The model has one container. A
  checklist's rows always share one list.
- `ChecklistWidget.LabelOf`: models the current copy's `.data('label')`. The
  bundled copy reads `meta.label` through the metadata plugin, which evaluates
  the class attribute as an object literal (js/jq-checklist.js:191, 203-204).
  There it falls back to the value only for a falsy value as written (`''`,
  `0`, `false`, `null`). A quoted `'0'`, `'false'`, `'null'` or `'NaN'` stays a
  non-empty string and becomes the label.
- `ChecklistWidget.LabelOf`: a checkbox without a value attribute is not
  represented. `Descriptor.value` is always a string.
- `ChecklistWidget.LabelOf`: `data-label` texts that `.data` parses as JSON
  (starting with `{` or `[`) become objects. Texts such as `"true"` or `"12"`
  become a boolean or a number. The model keeps the text. For the
  non-JSON cases the rendered label is the same text.
- `ChecklistWidget.Rows`: the label is written with `.html(...)`
  (js/checklist.js:200) and filtered on its `.text()` (js/itemfilter.js:202).
  The model uses the caption as given, so markup or entities in a label are
  not interpreted.
- `ChecklistWidget.Checklist.GetChecked`: returns the values of the checked
  checkboxes rather than the jQuery collection of the elements.
- `ChecklistWidget.Checklist.OnCheck`: records the callback's count and the
  summary write. It does not record that the callback runs before the summary
  is written.
- `ChecklistWidget.Checklist.constructor`: the summary's initial `'0 selected'`
  (js/checklist.js:287) is written and then replaced by `update_summary` before
  construction returns. Only the final text is stated.
- The `matches` scratch array of the filter is a local of
  `ItemFilterWidget.ItemFilter.Search`. It is cleared before every search and
  never read elsewhere.
- Floating-point number rendering: counts are integers, rendered as decimal.
