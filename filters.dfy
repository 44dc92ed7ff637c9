/** The derived values of the filter bar: the category choices, the category choices that
    match the dropdown's own search box, and the label of the selected category. */
module Filters {
  import opened JsStrings
  import opened Seqs
  import opened Types

  /** `products.map((p) => p.category)`. */
  function CategoryNames(products: seq<Product>): (r: seq<string>)
    ensures |r| == |products|
    ensures forall i :: 0 <= i < |products| ==> r[i] == products[i].category
  {
    if products == [] then [] else [products[0].category] + CategoryNames(products[1..])
  }

  /** `Array.from(new Set(s))`: each value once, in the order a Set receives them, that is in
      the order of first occurrence. */
  function InsertionOrder(s: seq<string>): (r: seq<string>)
    ensures forall i, j :: 0 <= i < j < |r| ==> r[i] != r[j]
    ensures forall x :: x in r <==> x in s
  {
    if s == [] then []
    else
      var d := InsertionOrder(s[..|s| - 1]);
      var x := s[|s| - 1];
      assert forall y :: y in s <==> y in s[..|s| - 1] || y == x by {
        assert s == s[..|s| - 1] + [x];
      }
      if x in d then d else d + [x]
  }

  /** Every element of `r` occurs in `s`, and earlier elements of `r` occur first earlier in `s`. */
  predicate InFirstOccurrenceOrder(s: seq<string>, r: seq<string>) {
    && (forall x :: x in r ==> x in s)
    && forall i, j :: 0 <= i < j < |r| ==> FirstIndex(s, r[i]) < FirstIndex(s, r[j])
  }

  /** Extending `s` past a prefix keeps the order of first occurrences within that prefix. */
  lemma OrderCarriesToExtension(s: seq<string>, n: nat, d: seq<string>)
    requires n <= |s| && InFirstOccurrenceOrder(s[..n], d)
    ensures InFirstOccurrenceOrder(s, d)
    ensures forall y :: y in d ==> FirstIndex(s, y) < n
  {
    forall y | y in d ensures y in s && FirstIndex(s, y) == FirstIndex(s[..n], y) {
      FirstIndexOfPrefix(s, n, y);
    }
    forall i, j | 0 <= i < j < |d| ensures FirstIndex(s, d[i]) < FirstIndex(s, d[j]) {
      assert d[i] in d && d[j] in d;
    }
  }

  /** A value absent from a prefix and placed right after it is first found there, after
      every value of the prefix. */
  lemma OrderWithNewLast(s: seq<string>, d: seq<string>)
    requires s != [] && InFirstOccurrenceOrder(s, d)
    requires forall y :: y in d ==> FirstIndex(s, y) < |s| - 1
    requires s[|s| - 1] !in s[..|s| - 1]
    ensures InFirstOccurrenceOrder(s, d + [s[|s| - 1]])
  {
    PairsWithNewLast(s, d);
  }

  /** The pairwise half of OrderWithNewLast. */
  lemma PairsWithNewLast(s: seq<string>, d: seq<string>)
    requires s != [] && InFirstOccurrenceOrder(s, d)
    requires forall y :: y in d ==> FirstIndex(s, y) < |s| - 1
    requires s[|s| - 1] !in s[..|s| - 1]
    ensures forall y :: y in d + [s[|s| - 1]] ==> y in s
    ensures var r := d + [s[|s| - 1]];
      forall i, j :: 0 <= i < j < |r| ==> FirstIndex(s, r[i]) < FirstIndex(s, r[j])
  {
    var r := d + [s[|s| - 1]];
    forall y | y in r ensures y in s {
      assert y in d || y == s[|s| - 1];
    }
    forall i, j | 0 <= i < j < |r| ensures FirstIndex(s, r[i]) < FirstIndex(s, r[j]) {
      PairWithNewLast(s, d, i, j);
    }
  }

  /** One pair of OrderWithNewLast. */
  lemma PairWithNewLast(s: seq<string>, d: seq<string>, i: nat, j: nat)
    requires s != [] && InFirstOccurrenceOrder(s, d)
    requires forall y :: y in d ==> FirstIndex(s, y) < |s| - 1
    requires s[|s| - 1] !in s[..|s| - 1]
    requires i < j <= |d|
    ensures var r := d + [s[|s| - 1]];
      r[i] in s && r[j] in s && FirstIndex(s, r[i]) < FirstIndex(s, r[j])
  {
    var r := d + [s[|s| - 1]];
    assert r[i] == d[i] && d[i] in d;
    if j < |d| {
      assert r[j] == d[j];
    } else {
      FirstIndexOfNewLast(s);
      assert r[j] == s[|s| - 1];
    }
  }

  /** The values come out in the order of their first occurrences in `s`. */
  lemma {:induction false} InsertionOrderFollowsFirstOccurrence(s: seq<string>)
    ensures InFirstOccurrenceOrder(s, InsertionOrder(s))
  {
    if s != [] {
      var n := |s| - 1;
      var d := InsertionOrder(s[..n]);
      InsertionOrderFollowsFirstOccurrence(s[..n]);
      OrderCarriesToExtension(s, n, d);
      if s[n] !in d {
        OrderWithNewLast(s, d);
      }
    }
  }

  /** categories: the sentinel followed by the distinct product categories. */
  function Categories(products: seq<Product>): (r: seq<string>)
    ensures |r| >= 1 && r[0] == AllCategories
    ensures forall x :: x in r[1..] <==> exists i :: 0 <= i < |products| && products[i].category == x
    ensures forall i, j :: 1 <= i < j < |r| ==> r[i] != r[j]
  {
    var names := CategoryNames(products);
    var r := [AllCategories] + InsertionOrder(names);
    assert r[1..] == InsertionOrder(names);
    assert forall x :: x in names <==> exists i :: 0 <= i < |products| && products[i].category == x by {
      forall x | x in names ensures exists i :: 0 <= i < |products| && products[i].category == x {
        var i :| 0 <= i < |names| && names[i] == x;
        assert products[i].category == x;
      }
    }
    r
  }

  /** After the sentinel, the categories follow the order in which each first appears in
      the product list. */
  lemma CategoriesInFirstOccurrenceOrder(products: seq<Product>)
    ensures InFirstOccurrenceOrder(CategoryNames(products), Categories(products)[1..])
  {
    var names := CategoryNames(products);
    InsertionOrderFollowsFirstOccurrence(names);
    assert Categories(products)[1..] == InsertionOrder(names);
  }

  /** The whole list is free of repeats exactly when no product uses the sentinel itself
      as its category. */
  lemma CategoriesDistinctIff(products: seq<Product>)
    ensures var r := Categories(products);
      (forall i, j :: 0 <= i < j < |r| ==> r[i] != r[j])
      <==> (forall k :: 0 <= k < |products| ==> products[k].category != AllCategories)
  {
    var r := Categories(products);
    if exists k :: 0 <= k < |products| && products[k].category == AllCategories {
      var k :| 0 <= k < |products| && products[k].category == AllCategories;
      assert AllCategories in r[1..];
      var j :| 0 <= j < |r[1..]| && r[1..][j] == AllCategories;
      assert r[0] == r[j + 1];
    } else {
      forall i, j | 0 <= i < j < |r| ensures r[i] != r[j] {
        if i == 0 {
          assert r[j] in r[1..] by { assert r[j] == r[1..][j - 1]; }
        }
      }
    }
  }

  /** The text a category is searched by: the sentinel reads "all categories". */
  function SearchLabel(c: string): string {
    if c == AllCategories then "all categories" else c
  }

  predicate LabelMatches(c: string, q: string) {
    IsSubstring(ToLower(SearchLabel(c)), q)
  }

  /** `categories.filter(...)` by label, in order, for a trimmed and lower-cased query. */
  function FilterByLabel(categories: seq<string>, q: string): (r: seq<string>)
    ensures |r| <= |categories|
    ensures forall c :: c in r <==> c in categories && LabelMatches(c, q)
  {
    if categories == [] then []
    else
      var rest := FilterByLabel(categories[1..], q);
      if LabelMatches(categories[0], q) then [categories[0]] + rest else rest
  }

  /** filteredCategories: the full list for an empty query, otherwise the label filter. */
  function FilteredCategories(categories: seq<string>, categorySearch: string): seq<string> {
    var q := ToLower(Trim(categorySearch));
    if q == [] then categories else FilterByLabel(categories, q)
  }

  /** An empty or blank query leaves the list as it is. */
  lemma BlankQueryKeepsAll(categories: seq<string>, categorySearch: string)
    requires AllWhitespace(categorySearch)
    ensures FilteredCategories(categories, categorySearch) == categories
  {
  }

  /** The early return for an empty query agrees with what the filter would give. */
  lemma {:induction false} EmptyQueryFilterKeepsAll(categories: seq<string>)
    ensures FilterByLabel(categories, "") == categories
  {
    if categories != [] {
      EmptyIsSubstring(ToLower(SearchLabel(categories[0])));
      assert LabelMatches(categories[0], "");
      EmptyQueryFilterKeepsAll(categories[1..]);
      assert FilterByLabel(categories, "") == [categories[0]] + categories[1..];
      assert [categories[0]] + categories[1..] == categories;
    }
  }

  /** The label filter works entry by entry: filtering a concatenation concatenates the
      filtered parts, so each copy of a repeated entry is kept or dropped on its own. */
  lemma {:induction false} FilterByLabelConcat(a: seq<string>, b: seq<string>, q: string)
    ensures FilterByLabel(a + b, q) == FilterByLabel(a, q) + FilterByLabel(b, q)
  {
    if a == [] {
      assert a + b == b;
    } else {
      assert (a + b)[1..] == a[1..] + b;
      FilterByLabelConcat(a[1..], b, q);
    }
  }

  /** The label filter keeps the order of the list. */
  lemma {:induction false} FilterByLabelIsSubsequence(categories: seq<string>, q: string)
    ensures IsSubsequence(FilterByLabel(categories, q), categories)
  {
    if categories != [] {
      FilterByLabelIsSubsequence(categories[1..], q);
      var rest := FilterByLabel(categories[1..], q);
      if !LabelMatches(categories[0], q) && rest != [] {
        assert rest[0] in rest;
      }
    }
  }

  /** filteredCategories is an order-preserving selection of the categories that keeps an
      entry exactly when its lower-cased label contains the trimmed, lower-cased query. */
  lemma FilteredCategoriesSpec(categories: seq<string>, categorySearch: string)
    ensures IsSubsequence(FilteredCategories(categories, categorySearch), categories)
    ensures forall c :: (c in FilteredCategories(categories, categorySearch)
      <==> c in categories && LabelMatches(c, ToLower(Trim(categorySearch))))
  {
    var q := ToLower(Trim(categorySearch));
    if q == [] {
      SubsequenceReflexive(categories);
      EmptyQueryFilterKeepsAll(categories);
    } else {
      FilterByLabelIsSubsequence(categories, q);
    }
  }

  /** selectedLabel: "All categories" for the sentinel, otherwise the category itself. */
  function SelectedLabel(category: string): (r: string)
    ensures category == AllCategories ==> r == "All categories"
    ensures category != AllCategories ==> r == category
  {
    if category == AllCategories then "All categories" else category
  }

  /** The button shows, up to case, the label the dropdown search looks at. */
  lemma SelectedLabelIsSearchLabel(category: string)
    ensures ToLower(SelectedLabel(category)) == ToLower(SearchLabel(category))
  {
    if category == AllCategories {
      assert ToLower("All categories") == "all categories";
    }
  }
}
