/** The search overlay (src/components/SearchOverlay.tsx): the recent-search
    list, the category filter, the fallback matcher used when the product
    search fails, and the state the search handler updates. */
module Search {
  import opened Common
  import opened Seqs
  import opened Text

  /** The product fields the overlay reads. */
  datatype Product = Product(id: string, name: string, category: string, tags: seq<string>)

  /** The recent-search list keeps at most this many queries. */
  const MaxRecentSearches: nat := 5

  /** The category buttons, in display order. */
  const Categories: seq<string> := ["All", "Tops", "Bottoms", "Outerwear", "Dresses", "Accessories"]

  // ---------------------------------------------------------------------
  // Recent searches: most recently used first, no repeats, at most five.
  // ---------------------------------------------------------------------

  /** `[query, ...recent.filter(s => s !== query)].slice(0, 5)`. */
  function RecordSearch(recent: seq<string>, query: string): (r: seq<string>)
    ensures 0 < |r| <= MaxRecentSearches
    ensures r[0] == query
    ensures r <= [query] + RemoveAll(recent, query)
    ensures |r| == if 1 + |RemoveAll(recent, query)| < MaxRecentSearches
                   then 1 + |RemoveAll(recent, query)| else MaxRecentSearches
  {
    var updated := [query] + RemoveAll(recent, query);
    if |updated| <= MaxRecentSearches then updated else updated[..MaxRecentSearches]
  }

  /** The query is in the updated list exactly once. */
  lemma RecordSearchOnce(recent: seq<string>, query: string)
    ensures Count(RecordSearch(recent, query), query) == 1
  {
    var r := RecordSearch(recent, query);
    var rest := RemoveAll(recent, query);
    assert r == [query] + r[1..];
    assert r[1..] == rest[..|r| - 1];
    CountAppend([query], r[1..], query);
    CountZeroIffAbsent(r[1..], query);
  }

  /** A duplicate-free list stays duplicate-free. */
  lemma RecordSearchNoDup(recent: seq<string>, query: string)
    requires NoDup(recent)
    ensures NoDup(RecordSearch(recent, query))
  {
    var rest := RemoveAll(recent, query);
    var updated := [query] + rest;
    forall x ensures Count(updated, x) <= 1 {
      CountAppend([query], rest, x);
      RemoveAllCount(recent, query, x);
    }
    NoDupPrefix(updated, |RecordSearch(recent, query)|);
    assert updated[..|RecordSearch(recent, query)|] == RecordSearch(recent, query);
  }

  /** An entry other than the query survives iff it was among the most
      recent entries that still fit. */
  lemma RecordSearchKeepsOthers(recent: seq<string>, query: string, s: string)
    requires s != query
    ensures s in RecordSearch(recent, query) ==> s in recent
    ensures s in recent && |RemoveAll(recent, query)| < MaxRecentSearches ==> s in RecordSearch(recent, query)
  {
    var rest := RemoveAll(recent, query);
    var r := RecordSearch(recent, query);
    FilterMembership(recent, Differs(query), s);
    assert s in rest <==> s in recent;
    if s in r {
      var i :| 0 <= i < |r| && r[i] == s;
      assert s == ([query] + rest)[i];
      assert i > 0 && s == rest[i - 1];
    }
    if s in recent && |rest| < MaxRecentSearches {
      assert r == [query] + rest;
      assert s in rest;
    }
  }

  /** Searching for the same query twice in a row gives the same list as once. */
  lemma RecordSearchIdempotent(recent: seq<string>, query: string)
    ensures RecordSearch(RecordSearch(recent, query), query) == RecordSearch(recent, query)
  {
    var r := RecordSearch(recent, query);
    var tail := r[1..];
    assert tail == RemoveAll(recent, query)[..|r| - 1];
    assert query !in tail;
    assert r == [query] + tail;
    FilterAppend([query], tail, Differs(query));
    RemoveAllAbsent(tail, query);
    assert RemoveAll(r, query) == tail;
  }

  // ---------------------------------------------------------------------
  // Blank queries and the category filter.
  // ---------------------------------------------------------------------

  /** `!query.trim()`: the query holds no search text. */
  predicate IsBlankQuery(query: string) {
    Trim(query) == []
  }

  lemma BlankQueryIsWhitespace(query: string)
    ensures IsBlankQuery(query) <==> IsBlank(query)
  {
    TrimEmptyIffBlank(query);
  }

  /** The value stored in `selectedCategory` when a category button is pressed. */
  function CategoryValue(category: string): string {
    if category == "All" then "" else category
  }

  /** Whether a category button is drawn as the selected one. */
  predicate IsHighlighted(selected: string, category: string) {
    selected == category || (selected == "" && category == "All")
  }

  /** Pressing a button highlights exactly that button. */
  lemma PressedCategoryIsHighlighted(pressed: string, category: string)
    requires pressed in Categories && category in Categories
    ensures IsHighlighted(CategoryValue(pressed), category) <==> pressed == category
  {
  }

  /** The search results narrowed to the selected category; '' and 'All' keep every result. */
  function FilterByCategory(results: seq<Product>, selected: string): seq<Product> {
    if selected != "" && selected != "All" then Filter(results, (p: Product) => p.category == selected) else results
  }

  lemma FilterByCategoryExact(results: seq<Product>, selected: string)
    ensures selected == "" || selected == "All" ==> FilterByCategory(results, selected) == results
    ensures selected != "" && selected != "All" ==>
      && SubsequenceOf(FilterByCategory(results, selected), results)
      && forall p :: Count(FilterByCategory(results, selected), p)
                     == if p.category == selected then Count(results, p) else 0
  {
    if selected != "" && selected != "All" {
      FilterIsSubsequence(results, (p: Product) => p.category == selected);
      forall p ensures Count(FilterByCategory(results, selected), p)
                       == if p.category == selected then Count(results, p) else 0 {
        FilterCount(results, (q: Product) => q.category == selected, p);
      }
    }
  }

  // ---------------------------------------------------------------------
  // The fallback matcher over the suggested products.
  // ---------------------------------------------------------------------

  /** Case-insensitive match of the query on the product name or on one of its tags. */
  predicate Matches(p: Product, query: string) {
    var q := LowerStr(query);
    Contains(LowerStr(p.name), q) || exists i :: 0 <= i < |p.tags| && Contains(LowerStr(p.tags[i]), q)
  }

  /** The results shown when the product search throws. */
  function FallbackResults(suggested: seq<Product>, query: string): seq<Product> {
    Filter(suggested, p => Matches(p, query))
  }

  /** A suggested product is kept, with all its copies, iff the lower-cased
      query occurs in its lower-cased name or in one of its lower-cased tags;
      order is kept. */
  lemma FallbackExact(suggested: seq<Product>, query: string, p: Product)
    ensures p in FallbackResults(suggested, query) <==>
      && p in suggested
      && (|| Occurs(LowerStr(p.name), LowerStr(query))
          || exists t :: t in p.tags && Occurs(LowerStr(t), LowerStr(query)))
    ensures SubsequenceOf(FallbackResults(suggested, query), suggested)
    ensures Count(FallbackResults(suggested, query), p)
            == if (|| Occurs(LowerStr(p.name), LowerStr(query))
                   || exists t :: t in p.tags && Occurs(LowerStr(t), LowerStr(query)))
               then Count(suggested, p) else 0
  {
    var q := LowerStr(query);
    FilterMembership(suggested, x => Matches(x, query), p);
    FilterCount(suggested, x => Matches(x, query), p);
    FilterIsSubsequence(suggested, x => Matches(x, query));
    ContainsIffOccurs(LowerStr(p.name), q);
    forall i | 0 <= i < |p.tags| ensures Contains(LowerStr(p.tags[i]), q) <==> Occurs(LowerStr(p.tags[i]), q) {
      ContainsIffOccurs(LowerStr(p.tags[i]), q);
    }
  }

  // ---------------------------------------------------------------------
  // The search handler.
  // ---------------------------------------------------------------------

  /** What the backend did during one search: the product search returned
      `results` and, for a signed-in user, recording the search on the
      account threw iff `recordFails`; or the product search threw. */
  datatype SearchOutcome = Fetched(results: seq<Product>, recordFails: bool) | FetchFailed

  /** The results shown after a search for a non-blank query. */
  function ResultsAfterSearch(query: string, selected: string, suggested: seq<Product>,
                              signedIn: bool, outcome: SearchOutcome): seq<Product>
  {
    match outcome
    case FetchFailed => FallbackResults(suggested, query)
    case Fetched(results, recordFails) =>
      if signedIn && recordFails then FallbackResults(suggested, query)
      else FilterByCategory(results, selected)
  }

  /** The recent-search list after a search for a non-blank query: updated
      once the product search has returned, untouched if it threw. */
  function RecentAfterSearch(recent: seq<string>, query: string, outcome: SearchOutcome): seq<string> {
    if outcome.Fetched? then RecordSearch(recent, query) else recent
  }

  /** A search whose product lookup succeeded puts the query first and keeps
      at most five entries; one that failed leaves the list alone. */
  lemma RecentAfterSearchSpec(recent: seq<string>, query: string, outcome: SearchOutcome)
    ensures outcome.Fetched? ==>
      && |RecentAfterSearch(recent, query, outcome)| <= MaxRecentSearches
      && RecentAfterSearch(recent, query, outcome)[0] == query
      && Count(RecentAfterSearch(recent, query, outcome), query) == 1
    ensures outcome.FetchFailed? ==> RecentAfterSearch(recent, query, outcome) == recent
  {
    if outcome.Fetched? {
      RecordSearchOnce(recent, query);
    }
  }

  /** The overlay's component state. */
  class SearchOverlay {
    var searchQuery: string
    var searchResults: seq<Product>
    var suggestedProducts: seq<Product>
    var recentSearches: seq<string>
    var isLoading: bool
    var selectedCategory: string
    /** The 'recentSearches' entry of local storage. */
    var storedRecentSearches: Option<seq<string>>

    constructor (stored: Option<seq<string>>)
      ensures searchQuery == "" && searchResults == [] && suggestedProducts == []
      ensures recentSearches == [] && !isLoading && selectedCategory == ""
      ensures storedRecentSearches == stored
    {
      searchQuery := "";
      searchResults := [];
      suggestedProducts := [];
      recentSearches := [];
      isLoading := false;
      selectedCategory := "";
      storedRecentSearches := stored;
    }

    /** Typing in the input, or clicking a trending or recent search. */
    method SetSearchQuery(query: string)
      modifies this`searchQuery
      ensures searchQuery == query
    {
      searchQuery := query;
    }

    /** Pressing a category button. */
    method SelectCategory(category: string)
      modifies this`selectedCategory
      ensures selectedCategory == CategoryValue(category)
      ensures IsHighlighted(selectedCategory, category)
    {
      if category == "All" {
        selectedCategory := "";
      } else {
        selectedCategory := category;
      }
    }

    /** Restoring the list saved under 'recentSearches', if there is one. */
    method LoadRecentSearches()
      modifies this`recentSearches
      ensures recentSearches == if storedRecentSearches.Some? then storedRecentSearches.value
                                else old(recentSearches)
    {
      if storedRecentSearches.Some? {
        recentSearches := storedRecentSearches.value;
      }
    }

    /** Loading the latest products; `None` means the request threw and the
        built-in demo products are used instead. */
    method LoadSuggestedProducts(latest: Option<seq<Product>>)
      modifies this`suggestedProducts
      ensures suggestedProducts == if latest.Some? then latest.value else DemoProducts()
    {
      if latest.Some? {
        suggestedProducts := latest.value;
      } else {
        suggestedProducts := DemoProducts();
      }
    }

    /** The effect run when the query or the category changes: a non-blank
        query is searched (once the debounce delay has passed), a blank one
        clears the results. */
    method QueryChanged(signedIn: bool, outcome: SearchOutcome)
      modifies this`searchResults, this`recentSearches, this`isLoading, this`storedRecentSearches
      ensures IsBlankQuery(searchQuery) ==>
        && searchResults == [] && recentSearches == old(recentSearches) && isLoading == old(isLoading)
        && storedRecentSearches == old(storedRecentSearches)
      ensures !IsBlankQuery(searchQuery) ==>
        && searchResults == ResultsAfterSearch(searchQuery, selectedCategory, suggestedProducts, signedIn, outcome)
        && recentSearches == RecentAfterSearch(old(recentSearches), searchQuery, outcome)
        && storedRecentSearches == (if outcome.Fetched? then Some(recentSearches) else old(storedRecentSearches))
        && !isLoading
    {
      var query := searchQuery;
      if IsBlankQuery(query) {
        searchResults := [];
        return;
      }
      HandleSearch(query, signedIn, outcome);
    }

    /** `handleSearch`: a blank query returns at once; otherwise the search
        runs. */
    method HandleSearch(query: string, signedIn: bool, outcome: SearchOutcome)
      modifies this`searchResults, this`recentSearches, this`isLoading, this`storedRecentSearches
      ensures IsBlankQuery(query) ==>
        && searchResults == old(searchResults) && recentSearches == old(recentSearches)
        && isLoading == old(isLoading) && storedRecentSearches == old(storedRecentSearches)
      ensures !IsBlankQuery(query) ==>
        && searchResults == ResultsAfterSearch(query, selectedCategory, suggestedProducts, signedIn, outcome)
        && recentSearches == RecentAfterSearch(old(recentSearches), query, outcome)
        && storedRecentSearches == (if outcome.Fetched? then Some(recentSearches) else old(storedRecentSearches))
        && !isLoading
    {
      if IsBlankQuery(query) {
        return;
      }
      RunSearch(query, signedIn, outcome);
    }

    /** The `try`/`catch`/`finally` of `handleSearch`: the results are
        fetched and filtered by category, the query is recorded and saved to
        local storage, and if anything throws the fallback matcher over the
        suggested products supplies the results. */
    method RunSearch(query: string, signedIn: bool, outcome: SearchOutcome)
      modifies this`searchResults, this`recentSearches, this`isLoading, this`storedRecentSearches
      ensures searchResults == ResultsAfterSearch(query, selectedCategory, suggestedProducts, signedIn, outcome)
      ensures recentSearches == RecentAfterSearch(old(recentSearches), query, outcome)
      ensures storedRecentSearches == if outcome.Fetched? then Some(recentSearches) else old(storedRecentSearches)
      ensures !isLoading
    {
      isLoading := true;
      match outcome {
        case FetchFailed =>
          searchResults := FallbackResults(suggestedProducts, query);
        case Fetched(results, recordFails) =>
          searchResults := FilterByCategory(results, selectedCategory);
          recentSearches := RecordSearch(recentSearches, query);
          storedRecentSearches := Some(recentSearches);
          if signedIn && recordFails {
            searchResults := FallbackResults(suggestedProducts, query);
          }
      }
      isLoading := false;
    }
  }

  /** The two demo products shown when the latest products cannot be loaded:
      distinct ids, categories that have a button, and the names and tags
      the fallback matcher searches. */
  function DemoProducts(): (ps: seq<Product>)
    ensures |ps| == 2 && ps[0].id != ps[1].id
    ensures forall p :: p in ps ==> p.category in Categories
    ensures ps[0].name == "Premium Cotton T-Shirt" && ps[0].tags == ["cotton", "premium", "casual"]
    ensures ps[1].name == "Designer Jeans" && ps[1].tags == ["jeans", "designer", "denim"]
  {
    [ Product("1", "Premium Cotton T-Shirt", "Tops", ["cotton", "premium", "casual"]),
      Product("2", "Designer Jeans", "Bottoms", ["jeans", "designer", "denim"]) ]
  }
}
