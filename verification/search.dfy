/** The list under the carousel and its search: the items are filtered by a
    substring match of the query in their titles. Strings are sequences of
    characters; Unicode grapheme semantics are not modelled. */
module Search {

  /** `ListModel`. The fresh `UUID` that identifies an item is an opaque number. */
  datatype ListModel = ListModel(imageName: string, title: string, id: nat)

  /** `q` occurs in `s` as the run of characters starting at index `i`. */
  predicate OccursAt(s: string, q: string, i: int)
  {
    0 <= i <= |s| - |q| && s[i..i + |q|] == q
  }

  /** `q` occurs in `s` as a contiguous run of characters. */
  ghost predicate Occurs(s: string, q: string)
  {
    exists i :: OccursAt(s, q, i)
  }

  /** Substring test, scanning `s` from the left: it answers true exactly
      when `q` occurs in `s`. */
  function Contains(s: string, q: string): (b: bool)
    ensures b <==> Occurs(s, q)
    decreases |s|
  {
    if |q| > |s| then false
    else if s[..|q|] == q then assert OccursAt(s, q, 0); true
    else OccursStep(s, q); Contains(s[1..], q)
  }

  /** When `q` is not a prefix of `s`, it occurs in `s` iff it occurs in the tail. */
  lemma OccursStep(s: string, q: string)
    requires |q| <= |s| && s[..|q|] != q
    ensures Occurs(s, q) <==> Occurs(s[1..], q)
  {
    if Occurs(s, q) {
      var i :| OccursAt(s, q, i);
      assert i != 0;
      assert s[1..][i - 1..i - 1 + |q|] == s[i..i + |q|];
      assert OccursAt(s[1..], q, i - 1);
    }
    if Occurs(s[1..], q) {
      var i :| OccursAt(s[1..], q, i);
      assert s[i + 1..i + 1 + |q|] == s[1..][i..i + |q|];
      assert OccursAt(s, q, i + 1);
    }
  }

  /** `a` can be obtained from `b` by deleting elements. */
  predicate IsSubsequence<T(==)>(a: seq<T>, b: seq<T>)
    decreases |b|
  {
    |a| == 0 ||
    (|b| > 0 && ((a[0] == b[0] && IsSubsequence(a[1..], b[1..])) || IsSubsequence(a, b[1..])))
  }

  /** The items whose titles contain `q`, in their original order. */
  function FilterByTitle(items: seq<ListModel>, q: string): (r: seq<ListModel>)
    ensures |r| <= |items|
    ensures forall x :: x in r ==> x in items && Contains(x.title, q)
    ensures forall x :: x in items && Contains(x.title, q) ==> x in r
  {
    if |items| == 0 then []
    else if Contains(items[0].title, q) then [items[0]] + FilterByTitle(items[1..], q)
    else FilterByTitle(items[1..], q)
  }

  /** `searchResults`: the whole list for an empty query; otherwise exactly
      the items whose titles contain the query. */
  function SearchResults(searchData: seq<ListModel>, searchText: string): (r: seq<ListModel>)
    ensures |searchText| == 0 ==> r == searchData
    ensures |r| <= |searchData|
    ensures |searchText| > 0 ==>
              forall x :: x in r <==> x in searchData && Occurs(x.title, searchText)
  {
    if |searchText| == 0 then searchData
    else FilterByTitle(searchData, searchText)
  }

  /** Filtering keeps order: the result is a subsequence of the input. */
  lemma {:induction false} FilterIsSubsequence(items: seq<ListModel>, q: string)
    ensures IsSubsequence(FilterByTitle(items, q), items)
  {
    if |items| > 0 {
      FilterIsSubsequence(items[1..], q);
      var rest := FilterByTitle(items[1..], q);
      if Contains(items[0].title, q) {
        assert ([items[0]] + rest)[1..] == rest;
      } else {
        SubsequenceOfTail(rest, items);
      }
    }
  }

  /** A subsequence of the tail is a subsequence of the whole. */
  lemma SubsequenceOfTail<T>(a: seq<T>, b: seq<T>)
    requires |b| > 0 && IsSubsequence(a, b[1..])
    ensures IsSubsequence(a, b)
  {
  }

  /** Filtering twice with the same query is filtering once. */
  lemma {:induction false} FilterIdempotent(items: seq<ListModel>, q: string)
    ensures FilterByTitle(FilterByTitle(items, q), q) == FilterByTitle(items, q)
  {
    if |items| > 0 {
      FilterIdempotent(items[1..], q);
      var rest := FilterByTitle(items[1..], q);
      if Contains(items[0].title, q) {
        assert ([items[0]] + rest)[0] == items[0];
        assert ([items[0]] + rest)[1..] == rest;
      }
    }
  }

  /** The search results: the whole list for an empty query; otherwise an
      order-preserving selection of exactly the items whose titles contain
      the query. Searching the results again changes nothing. */
  lemma SearchResultsSpec(searchData: seq<ListModel>, searchText: string)
    ensures |searchText| == 0 ==> SearchResults(searchData, searchText) == searchData
    ensures IsSubsequence(SearchResults(searchData, searchText), searchData)
    ensures |searchText| > 0 ==>
              forall x :: x in SearchResults(searchData, searchText) <==>
                            x in searchData && Occurs(x.title, searchText)
    ensures SearchResults(SearchResults(searchData, searchText), searchText)
         == SearchResults(searchData, searchText)
  {
    SubsequenceReflexive(searchData);
    FilterIsSubsequence(searchData, searchText);
    FilterIdempotent(searchData, searchText);
  }

  /** Every sequence is a subsequence of itself. */
  lemma {:induction false} SubsequenceReflexive<T>(a: seq<T>)
    ensures IsSubsequence(a, a)
    decreases |a|
  {
    if |a| > 0 {
      SubsequenceReflexive(a[1..]);
    }
  }

  /** A filter whose query every title contains keeps the whole list. */
  lemma {:induction false} KeepsAll(items: seq<ListModel>, q: string)
    requires forall i :: 0 <= i < |items| ==> Contains(items[i].title, q)
    ensures FilterByTitle(items, q) == items
  {
    if |items| > 0 {
      KeepsAll(items[1..], q);
      assert [items[0]] + items[1..] == items;
    }
  }

  /** Filtering distributes over concatenation. */
  lemma {:induction false} FilterAppend(a: seq<ListModel>, b: seq<ListModel>, q: string)
    ensures FilterByTitle(a + b, q) == FilterByTitle(a, q) + FilterByTitle(b, q)
  {
    if |a| == 0 {
      assert a + b == b;
    } else {
      assert (a + b)[0] == a[0];
      assert (a + b)[1..] == a[1..] + b;
      FilterAppend(a[1..], b, q);
    }
  }

  /** A filter whose query no title contains keeps nothing. */
  lemma {:induction false} KeepsNone(items: seq<ListModel>, q: string)
    requires forall i :: 0 <= i < |items| ==> !Contains(items[i].title, q)
    ensures FilterByTitle(items, q) == []
  {
    if |items| > 0 {
      KeepsNone(items[1..], q);
    }
  }
}
