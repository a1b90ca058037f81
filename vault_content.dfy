/** The item list (components/vault/vault-content.tsx): the rows fetched
    for the selected type, narrowed by a case-insensitive search over the
    title, username, website, notes and tags. */
module Content {
  import opened Common
  import opened JsString
  import opened VaultItems

  /** The sidebar's type choice: every type, or one of them. */
  datatype TypeSelection = AllTypes | OnlyType(itemType: ItemType)

  /** The equality constraint the fetch adds on the `type` column. */
  function TypeConstraint(selection: TypeSelection): (c: Option<ItemType>)
    ensures c.None? <==> selection.AllTypes?
    ensures c.Some? ==> c.value == selection.itemType
  {
    match selection
    case AllTypes => None
    case OnlyType(t) => Some(t)
  }

  /** The rows the database returns for the query: those meeting the
      constraint, in table order (the `updated_at` ordering is the
      server's and is not modelled). */
  function Select(table: seq<VaultItem>, c: Option<ItemType>): (r: seq<VaultItem>)
    ensures forall k :: 0 <= k < |r| ==> r[k] in table && (c.Some? ==> r[k].itemType == c.value)
  {
    if table == [] then []
    else (if c.None? || table[0].itemType == c.value then [table[0]] else []) + Select(table[1..], c)
  }

  /** `field?.toLowerCase().includes(q)` on an optional column. */
  predicate FieldIncludes(field: Option<string>, q: string) {
    field.Some? && Includes(Lower(field.value), q)
  }

  /** `tags?.some(tag => tag.toLowerCase().includes(q))`. */
  predicate SomeTagIncludes(tags: Option<seq<string>>, q: string) {
    tags.Some? && exists k :: 0 <= k < |tags.value| && Includes(Lower(tags.value[k]), q)
  }

  /** The search predicate, for an already lower-cased query. */
  function MatchesQuery(item: VaultItem, q: string): (r: bool)
    ensures q == "" ==> r
    ensures Includes(Lower(item.title), q) ==> r
  {
    || Includes(Lower(item.title), q)
    || FieldIncludes(item.username, q)
    || FieldIncludes(item.websiteUrl, q)
    || FieldIncludes(item.notes, q)
    || SomeTagIncludes(item.tags, q)
  }

  /** The texts the search looks at: the title, each optional column that
      is present, and every tag. */
  function SearchedTexts(item: VaultItem): seq<string> {
    [item.title] + Present(item.username) + Present(item.websiteUrl) + Present(item.notes)
      + (if item.tags.Some? then item.tags.value else [])
  }

  function Present(field: Option<string>): seq<string> {
    if field.Some? then [field.value] else []
  }

  /** Some text of `texts`, lower-cased, contains `q`. */
  predicate AnyIncludes(texts: seq<string>, q: string) {
    exists k :: 0 <= k < |texts| && Includes(Lower(texts[k]), q)
  }

  lemma AnyIncludesConcat(x: seq<string>, y: seq<string>, q: string)
    ensures AnyIncludes(x + y, q) <==> AnyIncludes(x, q) || AnyIncludes(y, q)
  {
    if AnyIncludes(x + y, q) {
      var k :| 0 <= k < |x + y| && Includes(Lower((x + y)[k]), q);
      if k < |x| {
        assert (x + y)[k] == x[k];
      } else {
        assert (x + y)[k] == y[k - |x|];
      }
    }
    if AnyIncludes(x, q) {
      var k :| 0 <= k < |x| && Includes(Lower(x[k]), q);
      assert (x + y)[k] == x[k];
    }
    if AnyIncludes(y, q) {
      var k :| 0 <= k < |y| && Includes(Lower(y[k]), q);
      assert (x + y)[|x| + k] == y[k];
    }
  }

  lemma AnyIncludesPresent(field: Option<string>, q: string)
    ensures AnyIncludes(Present(field), q) <==> FieldIncludes(field, q)
  {
    if field.Some? {
      assert Present(field)[0] == field.value;
    }
  }

  /** An item matches exactly when one of the texts the search looks at
      contains the query: the five searched fields, and nothing else. */
  lemma MatchesSomeText(item: VaultItem, q: string)
    ensures MatchesQuery(item, q) <==> AnyIncludes(SearchedTexts(item), q)
  {
    var tagTexts := if item.tags.Some? then item.tags.value else [];
    var a := [item.title] + Present(item.username);
    var b := a + Present(item.websiteUrl);
    var c := b + Present(item.notes);
    AnyIncludesConcat([item.title], Present(item.username), q);
    AnyIncludesConcat(a, Present(item.websiteUrl), q);
    AnyIncludesConcat(b, Present(item.notes), q);
    AnyIncludesConcat(c, tagTexts, q);
    AnyIncludesPresent(item.username, q);
    AnyIncludesPresent(item.websiteUrl, q);
    AnyIncludesPresent(item.notes, q);
    assert AnyIncludes([item.title], q) <==> Includes(Lower(item.title), q) by {
      assert [item.title][0] == item.title;
    }
    assert AnyIncludes(tagTexts, q) <==> SomeTagIncludes(item.tags, q);
  }

  /** `items.filter(item => MatchesQuery(item, q))`. */
  function FilterMatching(items: seq<VaultItem>, q: string): (r: seq<VaultItem>)
    ensures |r| <= |items|
    ensures forall k :: 0 <= k < |r| ==> MatchesQuery(r[k], q) && r[k] in items
  {
    if items == [] then []
    else (if MatchesQuery(items[0], q) then [items[0]] else []) + FilterMatching(items[1..], q)
  }

  /** The search step: no filtering for an empty query, otherwise the
      fetched items matching the lower-cased query. */
  function SearchFilter(items: seq<VaultItem>, searchQuery: string): (r: seq<VaultItem>)
    ensures searchQuery == "" ==> r == items
    ensures searchQuery != "" ==> r == FilterMatching(items, Lower(searchQuery))
  {
    if searchQuery == "" then items else FilterMatching(items, Lower(searchQuery))
  }

  /** The answer of the fetch. */
  datatype FetchResult = FetchFailed(message: string) | Fetched(data: Option<seq<VaultItem>>)

  /** The items shown after a fetch: an error keeps the previous list;
      otherwise the data (`data || []`) passes through the search step. */
  function NextItems(current: seq<VaultItem>, result: FetchResult, searchQuery: string): (r: seq<VaultItem>)
    ensures result.FetchFailed? ==> r == current
    ensures result.Fetched? && result.data.None? ==> r == []
    ensures result.Fetched? && result.data.Some? ==> r == SearchFilter(result.data.value, searchQuery)
  {
    match result
    case FetchFailed(_) => current
    case Fetched(data) => SearchFilter(if data.Some? then data.value else [], searchQuery)
  }

  /** An item is kept exactly when it is one of the fetched items and it
      matches: the filter drops no matching item and keeps no other. */
  lemma {:induction false} FilterKeepsExactlyMatching(items: seq<VaultItem>, q: string, x: VaultItem)
    ensures x in FilterMatching(items, q) <==> x in items && MatchesQuery(x, q)
  {
    if items != [] {
      FilterKeepsExactlyMatching(items[1..], q, x);
      assert items == [items[0]] + items[1..];
    }
  }

  /** The filter keeps the fetched order. */
  lemma {:induction false} FilterIsSubsequence(items: seq<VaultItem>, q: string)
    ensures IsSubsequence(FilterMatching(items, q), items)
  {
    if items != [] {
      FilterIsSubsequence(items[1..], q);
      var rest := FilterMatching(items[1..], q);
      if MatchesQuery(items[0], q) {
        assert FilterMatching(items, q) == [items[0]] + rest;
        assert FilterMatching(items, q)[1..] == rest;
      } else {
        assert FilterMatching(items, q) == rest;
        SubsequenceOfTail(rest, items);
      }
    }
  }

  /** The filter works item by item: on two runs of items it gives the
      result for the first followed by the result for the second, so a
      repeated matching item is kept as often as it occurs. */
  lemma {:induction false} FilterConcat(a: seq<VaultItem>, b: seq<VaultItem>, q: string)
    ensures FilterMatching(a + b, q) == FilterMatching(a, q) + FilterMatching(b, q)
  {
    if a != [] {
      var x, rest := a[0], a[1..];
      assert a == [x] + rest && a + b == [x] + (rest + b);
      FilterCons(x, rest, q);
      FilterCons(x, rest + b, q);
      FilterConcat(rest, b, q);
      AppendAssoc(if MatchesQuery(x, q) then [x] else [], FilterMatching(rest, q), FilterMatching(b, q));
    } else {
      assert a + b == b;
    }
  }

  lemma FilterCons(x: VaultItem, rest: seq<VaultItem>, q: string)
    ensures FilterMatching([x] + rest, q) == (if MatchesQuery(x, q) then [x] else []) + FilterMatching(rest, q)
  {
    assert ([x] + rest)[0] == x && ([x] + rest)[1..] == rest;
  }

  /** One item is kept exactly when it matches. */
  lemma FilterSingle(x: VaultItem, q: string)
    ensures FilterMatching([x], q) == if MatchesQuery(x, q) then [x] else []
  {
    assert [x][1..] == [];
  }

  /** A subsequence of the tail is a subsequence of the whole. */
  lemma SubsequenceOfTail<T>(a: seq<T>, b: seq<T>)
    requires b != [] && IsSubsequence(a, b[1..])
    ensures IsSubsequence(a, b)
  {
  }

  /** A list whose every item matches passes the filter unchanged. */
  lemma {:induction false} FilterOfMatching(items: seq<VaultItem>, q: string)
    requires forall k :: 0 <= k < |items| ==> MatchesQuery(items[k], q)
    ensures FilterMatching(items, q) == items
  {
    if items != [] {
      FilterOfMatching(items[1..], q);
      assert items == [items[0]] + items[1..];
    }
  }

  /** Filtering twice is filtering once. */
  lemma FilterIdempotent(items: seq<VaultItem>, q: string)
    ensures FilterMatching(FilterMatching(items, q), q) == FilterMatching(items, q)
  {
    FilterOfMatching(FilterMatching(items, q), q);
  }

  /** Searching the search result again changes nothing. */
  lemma SearchIdempotent(items: seq<VaultItem>, searchQuery: string)
    ensures SearchFilter(SearchFilter(items, searchQuery), searchQuery) == SearchFilter(items, searchQuery)
  {
    if searchQuery != "" {
      FilterIdempotent(items, Lower(searchQuery));
    }
  }

  /** The empty query matches every item, so the `if (searchQuery)` guard
      changes nothing: filtering with it would keep every item too. */
  lemma EmptyQueryMatchesAll(items: seq<VaultItem>)
    ensures FilterMatching(items, "") == items
  {
    forall k | 0 <= k < |items| ensures MatchesQuery(items[k], "") {
      assert StartsWith(Lower(items[k].title), "");
    }
    FilterOfMatching(items, "");
  }

  /** The search ignores the case of the query's ASCII letters. */
  lemma SearchIgnoresQueryCase(items: seq<VaultItem>, searchQuery: string)
    ensures SearchFilter(items, Lower(searchQuery)) == SearchFilter(items, searchQuery)
  {
    LowerIdempotent(searchQuery);
  }

  /** With a type selected, every item shown after a fetch of the table
      has that type. */
  lemma ShownItemsHaveSelectedType(table: seq<VaultItem>, selection: TypeSelection, searchQuery: string)
    requires selection.OnlyType?
    ensures var shown := NextItems([], Fetched(Some(Select(table, TypeConstraint(selection)))), searchQuery);
      forall k :: 0 <= k < |shown| ==> shown[k].itemType == selection.itemType
  {
  }
}
