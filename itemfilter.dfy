/** The list filter: a fixed collection of elements, a search box, and a
    container whose attached elements are rebuilt on every search. An empty
    query re-attaches every element in its original order; any other query
    attaches exactly the elements whose key begins with the query, compared
    without regard to case, in their original order. */
module ItemFilterWidget {
  import opened Common
  import opened Text

  /** One filterable element (an option, a list item, a table row).
      `id` stands for the element's identity in the document; `value` is its
      value attribute, if any; `text` its text content; `labels` the texts of
      the label elements inside it, in document order. */
  datatype Element = Element(id: nat, value: Option<string>, text: string, labels: seq<string>)

  /** What a search can throw: the filter's own message for an unknown mode,
      or the type error of matching against an undefined key. */
  datatype Thrown = Message(text: string) | TypeError

  predicate KnownMode(filterOn: string)
  {
    filterOn == "value" || filterOn == "text" || filterOn == "label"
  }

  /** `get_value` (js/itemfilter.js:181-209): the key an element is filtered on. */
  function GetValue(item: Element, filterOn: string): (r: Result<Option<string>, Thrown>)
    ensures r.Failure? <==> !KnownMode(filterOn)
    ensures r.Failure? ==> r.error == Message("Cannot filter on " + filterOn)
    ensures r.Success? && r.value.None? ==> filterOn == "value" && item.value.None?
  {
    if filterOn == "value" then Success(item.value)
    else if filterOn == "text" then Success(Some(item.text))
    else if filterOn == "label" then Success(Some(if |item.labels| > 0 then item.labels[0] else ""))
    else Failure(Message("Cannot filter on " + filterOn))
  }

  /** The key as a string, the empty string where it is undefined. */
  function KeyText(item: Element, filterOn: string): string
  {
    match GetValue(item, filterOn)
    case Success(Some(v)) => v
    case _ => ""
  }

  // ---------------------------------------------------------------------
  // The pattern

  /** `str.split('\\').join('\\\\')`: every backslash is doubled. */
  function Escape(q: string): (p: string)
    ensures |p| >= |q|
  {
    if q == [] then [] else (if q[0] == '\\' then "\\\\" else [q[0]]) + Escape(q[1..])
  }

  /** The characters a pattern made of ordinary characters and escapes
      `\c` stands for: `\c` stands for `c`. */
  function Unescape(p: string): string
  {
    if p == [] then []
    else if p[0] == '\\' && |p| > 1 then [p[1]] + Unescape(p[2..])
    else [p[0]] + Unescape(p[1..])
  }

  /** A doubled backslash stands for one literal backslash, so the escaped
      query stands for the query itself. */
  lemma {:induction false} UnescapeEscape(q: string)
    ensures Unescape(Escape(q)) == q
  {
    if q != [] {
      UnescapeEscape(q[1..]);
      var e := Escape(q);
      if q[0] == '\\' {
        assert e == "\\\\" + Escape(q[1..]);
        assert e[2..] == Escape(q[1..]);
      } else {
        assert e == [q[0]] + Escape(q[1..]);
        assert e[1..] == Escape(q[1..]);
      }
    }
  }

  /** The pattern compiled for a query: anchored at the start. */
  function Pattern(query: string): string
  {
    "^" + Escape(query)
  }

  /** `key.match(new RegExp(pattern, 'i'))` for a pattern made of the anchor
      `^` followed by ordinary characters and backslash escapes. */
  predicate RegexMatch(key: string, pattern: string)
  {
    |pattern| > 0 && pattern[0] == '^' && StartsWithIgnoringCase(key, Unescape(pattern[1..]))
  }

  /** The compiled pattern matches a key exactly when the key begins with
      the query, compared without regard to case; a backslash in the query
      matches a backslash in the key. */
  lemma PatternMatchesPrefix(key: string, query: string)
    ensures RegexMatch(key, Pattern(query)) <==> StartsWithIgnoringCase(key, query)
  {
    assert Pattern(query)[1..] == Escape(query);
    UnescapeEscape(query);
  }

  /** Characters with a meaning in a regular expression other than the backslash. */
  predicate IsMetacharacter(c: char)
  {
    c in "^$.*+?()[]{}|"
  }

  /** A query whose compiled pattern contains only ordinary characters and escapes. */
  predicate Literal(query: string)
  {
    forall i :: 0 <= i < |query| ==> !IsMetacharacter(query[i])
  }

  // ---------------------------------------------------------------------
  // The search

  /** One step of the search loop: read the key, then match it. */
  function Test(item: Element, query: string, filterOn: string): Result<bool, Thrown>
  {
    match GetValue(item, filterOn)
    case Failure(e) => Failure(e)
    case Success(None) => Failure(TypeError)
    case Success(Some(v)) => Success(RegexMatch(v, Pattern(query)))
  }

  /** The search loop over `items` in order: the matching elements, or the
      first thing thrown. */
  function Matching(items: seq<Element>, query: string, filterOn: string): (r: Result<seq<Element>, Thrown>)
    ensures r.Success? ==> |r.value| <= |items| && forall e :: e in r.value ==> e in items
  {
    if items == [] then Success([])
    else
      var n := |items| - 1;
      match Matching(items[..n], query, filterOn)
      case Failure(e) => Failure(e)
      case Success(m) =>
        match Test(items[n], query, filterOn)
        case Failure(e) => Failure(e)
        case Success(b) => Success(if b then m + [items[n]] else m)
  }

  /** What a search on `str` attaches, or what it throws. */
  function SearchOutcome(items: seq<Element>, str: string, filterOn: string): Result<seq<Element>, Thrown>
  {
    if str == [] then Success(items) else Matching(items, str, filterOn)
  }

  /** `r` is `s` with some elements left out, the rest in order. */
  predicate IsSubsequence(r: seq<Element>, s: seq<Element>)
  {
    if r == [] then true
    else if s == [] then false
    else
      (r[|r| - 1] == s[|s| - 1] && IsSubsequence(r[..|r| - 1], s[..|s| - 1])) ||
      IsSubsequence(r, s[..|s| - 1])
  }

  /** Once the loop has thrown on a prefix, the whole search throws the same. */
  lemma {:induction false} MatchingFailurePersists(items: seq<Element>, k: nat, query: string, filterOn: string)
    requires k <= |items| && Matching(items[..k], query, filterOn).Failure?
    ensures Matching(items, query, filterOn) == Matching(items[..k], query, filterOn)
    decreases |items|
  {
    if k < |items| {
      var n := |items| - 1;
      assert items[..n][..k] == items[..k];
      MatchingFailurePersists(items[..n], k, query, filterOn);
    } else {
      assert items[..k] == items;
    }
  }

  /** A search that completes attaches exactly the elements whose key
      begins with the query: a subsequence of the elements, each of them
      matching, and every matching element among them. */
  lemma {:induction false} MatchingSelectsPrefixMatches(items: seq<Element>, query: string, filterOn: string)
    requires Matching(items, query, filterOn).Success?
    ensures IsSubsequence(Matching(items, query, filterOn).value, items)
    ensures forall e :: e in Matching(items, query, filterOn).value ==>
      StartsWithIgnoringCase(KeyText(e, filterOn), query)
    ensures forall i :: 0 <= i < |items| && StartsWithIgnoringCase(KeyText(items[i], filterOn), query) ==>
      items[i] in Matching(items, query, filterOn).value
    decreases |items|
  {
    if items != [] {
      var n := |items| - 1;
      var m := Matching(items[..n], query, filterOn).value;
      MatchingSelectsPrefixMatches(items[..n], query, filterOn);
      var key := GetValue(items[n], filterOn).value.value;
      assert KeyText(items[n], filterOn) == key;
      PatternMatchesPrefix(key, query);
      var r := Matching(items, query, filterOn).value;
      if RegexMatch(key, Pattern(query)) {
        assert r == m + [items[n]];
        assert r[..|r| - 1] == m;
      } else {
        assert r == m;
        assert m == [] || IsSubsequence(m, items[..n]);
      }
      forall i | 0 <= i < |items| && StartsWithIgnoringCase(KeyText(items[i], filterOn), query)
        ensures items[i] in r
      {
        if i < n {
          assert items[..n][i] == items[i];
        }
      }
    }
  }

  /** A search throws only when there is at least one element and the mode
      is unknown or, filtering on values, some element has no value
      attribute. */
  lemma {:induction false} MatchingThrowsIff(items: seq<Element>, query: string, filterOn: string)
    ensures Matching(items, query, filterOn).Failure? <==>
      |items| > 0 && (!KnownMode(filterOn) || (filterOn == "value" && exists i :: 0 <= i < |items| && items[i].value.None?))
    decreases |items|
  {
    if items != [] {
      var n := |items| - 1;
      MatchingThrowsIff(items[..n], query, filterOn);
      if filterOn == "value" && exists i :: 0 <= i < |items| && items[i].value.None? {
        var i :| 0 <= i < |items| && items[i].value.None?;
        if i < n {
          assert items[..n][i] == items[i];
        }
      }
      if filterOn == "value" && exists i :: 0 <= i < n && items[..n][i].value.None? {
        var i :| 0 <= i < n && items[..n][i].value.None?;
        assert items[i].value.None?;
      }
    }
  }

  /** With an unknown mode and at least one element, a search throws the
      filter's own message. */
  lemma UnknownModeThrows(items: seq<Element>, query: string, filterOn: string)
    requires !KnownMode(filterOn) && |items| > 0
    ensures Matching(items, query, filterOn) == Failure(Message("Cannot filter on " + filterOn))
  {
    assert items[..1][..0] == [];
    MatchingFailurePersists(items, 1, query, filterOn);
  }

  // ---------------------------------------------------------------------
  // The widget

  class ItemFilter {
    /** The elements found at initialisation, in document order. */
    const items: seq<Element>
    const filterOn: string
    /** The elements attached to the container, in container order. */
    var visible: seq<Element>
    /** The text of the search box. */
    var box: string

    ghost predicate Valid()
      reads this
    {
      forall e :: e in visible ==> e in items
    }

    /** `init` (js/itemfilter.js:116-121): every element is attached, in
        document order. */
    constructor (items: seq<Element>, filterOn: string)
      ensures Valid()
      ensures this.items == items && this.filterOn == filterOn
      ensures visible == items && box == ""
    {
      this.items := items;
      this.filterOn := filterOn;
      visible := items;
      box := "";
    }

    /** `build_list(arr)` (js/itemfilter.js:164-172): every element is
        detached, then those of `arr` are appended in order. */
    method BuildList(arr: seq<Element>)
      modifies this`visible
      ensures visible == arr
    {
      var attached: seq<Element> := [];
      var x := 0;
      while x < |arr|
        invariant 0 <= x <= |arr| && attached == arr[..x]
      {
        attached := attached + [arr[x]];
        x := x + 1;
      }
      visible := attached;
    }

    /** `search(str)` (js/itemfilter.js:217-234). On success the attached
        elements depend only on the elements, the query and the mode, never
        on what was attached before; when the loop throws, nothing is
        rebuilt. */
    method Search(str: string) returns (thrown: Option<Thrown>)
      requires Valid() && Literal(str)
      modifies this`visible
      ensures Valid()
      ensures str == [] ==> thrown == None && visible == items
      ensures SearchOutcome(items, str, filterOn).Success? ==>
        thrown == None && visible == SearchOutcome(items, str, filterOn).value
      ensures SearchOutcome(items, str, filterOn).Failure? ==>
        thrown == Some(SearchOutcome(items, str, filterOn).error) && visible == old(visible)
    {
      if |str| == 0 {
        BuildList(items);
        return None;
      }
      var pattern := Pattern(str);
      var matches: seq<Element> := [];
      var x := 0;
      while x < |items|
        invariant 0 <= x <= |items|
        invariant Matching(items[..x], str, filterOn) == Success(matches)
      {
        assert items[..x + 1][..x] == items[..x];
        var key := GetValue(items[x], filterOn);
        if key.Failure? {
          MatchingFailurePersists(items, x + 1, str, filterOn);
          return Some(key.error);
        }
        if key.value.None? {
          MatchingFailurePersists(items, x + 1, str, filterOn);
          return Some(TypeError);
        }
        if RegexMatch(key.value.value, pattern) {
          matches := matches + [items[x]];
        }
        x := x + 1;
      }
      assert items[..x] == items;
      BuildList(matches);
      thrown := None;
    }

    /** The key-up handler (js/itemfilter.js:148-152): the box holds
        `boxValue`; a Shift key (code 16) starts no search. */
    method KeyUp(which: int, boxValue: string) returns (thrown: Option<Thrown>)
      requires Valid() && Literal(boxValue)
      modifies this`visible, this`box
      ensures Valid() && box == boxValue
      ensures which == 16 ==> thrown == None && visible == old(visible)
      ensures which != 16 && SearchOutcome(items, boxValue, filterOn).Success? ==>
        thrown == None && visible == SearchOutcome(items, boxValue, filterOn).value
      ensures which != 16 && SearchOutcome(items, boxValue, filterOn).Failure? ==>
        thrown == Some(SearchOutcome(items, boxValue, filterOn).error) && visible == old(visible)
    {
      box := boxValue;
      if which == 16 {
        return None;
      }
      thrown := Search(box);
    }

    /** `clear_search` (js/itemfilter.js:125-128): empties the box and
        re-attaches every element in its original order. */
    method ClearSearch()
      requires Valid()
      modifies this`visible, this`box
      ensures Valid() && box == "" && visible == items
    {
      box := "";
      var _ := Search("");
    }
  }
}
