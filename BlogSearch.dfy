/**
 * The blog search box (`BlogSearch.tsx`): the query it shows, the URL it
 * navigates to on submit and on clear, and its popular-search suggestions.
 */
module BlogSearch {
  import opened Text
  import opened SearchParams

  /** The query shown for a URL: its `search` value, or "" (BlogSearch.tsx:15-23). */
  function QueryFromUrl(params: Params): (q: string)
    ensures Present(params, "search") ==> q == params["search"]
    ensures q == "" <==> !Present(params, "search")
  {
    if Present(params, "search") then params["search"] else ""
  }

  /**
   * `handleSearch`'s parameters (BlogSearch.tsx:28-39): a non-blank query
   * is stored trimmed and the page is dropped; a blank one removes the
   * search and keeps the page.
   */
  function SubmittedParams(params: Params, query: string): (r: Params)
    ensures !IsBlank(query) ==> "search" in r && r["search"] == Trim(query) && "page" !in r
    ensures !IsBlank(query) ==> SameElsewhere(params, r, {"search", "page"})
    ensures IsBlank(query) ==> "search" !in r && SameElsewhere(params, r, {"search"})
  {
    if !IsBlank(query) then params["search" := Trim(query)] - {"page"} else params - {"search"}
  }

  /** `clearSearch`'s parameters (BlogSearch.tsx:44-46). */
  function ClearedParams(params: Params): (r: Params)
    ensures "search" !in r && SameElsewhere(params, r, {"search"})
  {
    params - {"search"}
  }

  /** Submitting and then reading the URL back shows the trimmed query. */
  lemma SubmitThenSync(params: Params, query: string)
    ensures QueryFromUrl(SubmittedParams(params, query)) == Trim(query)
  {
  }

  /** A cleared URL shows an empty box. */
  lemma ClearThenSync(params: Params)
    ensures QueryFromUrl(ClearedParams(params)) == ""
  {
  }

  const PopularSearches := ["omegle alternatives", "random chat apps", "video chat safety tips",
                            "best anonymous chat sites", "make friends online"]

  /** `term.toLowerCase().includes(query.toLowerCase())` */
  predicate Matches(term: string, query: string) {
    Contains(ToLower(term), ToLower(query))
  }

  /** The terms that match the query, in their original order (BlogSearch.tsx:91-93). */
  function MatchingTerms(terms: seq<string>, query: string): (r: seq<string>)
    ensures forall t :: t in r <==> t in terms && Matches(t, query)
    ensures |r| <= |terms|
  {
    if terms == [] then []
    else (if Matches(terms[0], query) then [terms[0]] else []) + MatchingTerms(terms[1..], query)
  }

  /** The filter keeps order: it distributes over concatenation. */
  lemma {:induction false} MatchingTermsAppend(a: seq<string>, b: seq<string>, query: string)
    ensures MatchingTerms(a + b, query) == MatchingTerms(a, query) + MatchingTerms(b, query)
    decreases |a|
  {
    if a == [] {
      assert a + b == b;
    } else {
      assert (a + b)[1..] == a[1..] + b;
      MatchingTermsAppend(a[1..], b, query);
    }
  }

  /** The empty query matches every term. */
  lemma {:induction false} EmptyQueryMatchesAll(terms: seq<string>)
    ensures MatchingTerms(terms, "") == terms
  {
    if terms != [] {
      assert StartsWith(ToLower(terms[0]), ToLower(""));
      EmptyQueryMatchesAll(terms[1..]);
    }
  }

  class SearchBox {
    var searchQuery: string
    var isFocused: bool
    /** The query string of the current location. */
    var location: Params

    constructor (initial: Params)
      ensures searchQuery == "" && !isFocused && location == initial
    {
      searchQuery, isFocused, location := "", false, initial;
    }

    method EditQuery(s: string)
      modifies this`searchQuery
      ensures searchQuery == s
    {
      searchQuery := s;
    }

    /** The effect that runs when the location's query string changes (BlogSearch.tsx:15-23). */
    method SyncFromUrl()
      modifies this`searchQuery
      ensures searchQuery == QueryFromUrl(location)
    {
      searchQuery := QueryFromUrl(location);
    }

    /** `handleSearch` (BlogSearch.tsx:25-40): navigate to the submitted parameters. */
    method HandleSearch()
      modifies this`location
      ensures location == SubmittedParams(old(location), searchQuery)
    {
      location := SubmittedParams(location, searchQuery);
    }

    /** `clearSearch` (BlogSearch.tsx:42-47). */
    method ClearSearch()
      modifies this`searchQuery, this`location
      ensures searchQuery == "" && location == ClearedParams(old(location))
    {
      searchQuery := "";
      location := ClearedParams(location);
    }

    /**
     * A suggestion click (BlogSearch.tsx:98-105): the term becomes the query
     * and the form is submitted on the next tick.
     */
    method ChooseSuggestion(term: string)
      modifies this`searchQuery, this`location
      ensures searchQuery == term && location == SubmittedParams(old(location), term)
    {
      searchQuery := term;
      HandleSearch();
    }

    method Focus()
      modifies this`isFocused
      ensures isFocused
    {
      isFocused := true;
    }

    /** The 200 ms timer armed on blur (BlogSearch.tsx:60). */
    method BlurTimerElapsed()
      modifies this`isFocused
      ensures !isFocused
    {
      isFocused := false;
    }

    /** The suggestion box is open while the input is focused and not empty (BlogSearch.tsx:77). */
    predicate ShowSuggestions()
      reads this
    {
      isFocused && searchQuery != ""
    }

    function Suggestions(): (r: seq<string>)
      reads this
      ensures forall t :: t in r <==> t in PopularSearches && Matches(t, searchQuery)
    {
      MatchingTerms(PopularSearches, searchQuery)
    }
  }
}
