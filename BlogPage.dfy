/**
 * The standalone blog page (`BlogPage.tsx`): nine posts per page, its
 * own Previous/Next clamping and page buttons, a search form that
 * writes the URL with `history.pushState`, and its heading.
 */
module BlogPage {
  import opened Wrappers
  import opened Numbers
  import opened SearchParams
  import opened BlogService
  import BlogPostList

  const PostsPerPage := 9

  /** `Math.ceil(totalPosts / postsPerPage)` (BlogPage.tsx:68). */
  function TotalPages(totalPosts: int): (n: int)
    ensures (n - 1) * PostsPerPage < totalPosts <= n * PostsPerPage
  {
    BlogPostList.TotalPages(totalPosts, PostsPerPage)
  }

  /** The Previous updater `prev => Math.max(prev - 1, 1)` (BlogPage.tsx:172). */
  function Previous(page: int): int {
    Max(page - 1, 1)
  }

  /** The Next updater `prev => Math.min(prev + 1, totalPages)` (BlogPage.tsx:198). */
  function Next(page: int, totalPages: int): int {
    Min(page + 1, totalPages)
  }

  /** Both updaters keep a valid page valid, move by at most one, and stop at the ends. */
  lemma PreviousNextClamp(page: int, totalPages: int)
    requires 1 <= page <= totalPages
    ensures 1 <= Previous(page) <= totalPages && 1 <= Next(page, totalPages) <= totalPages
    ensures Previous(page) == (if page == 1 then 1 else page - 1)
    ensures Next(page, totalPages) == (if page == totalPages then totalPages else page + 1)
  {
  }

  // ---------------------------------------------------------- page buttons

  /** The pages `lo..hi` that `keep` accepts, in increasing order. */
  function Select(lo: int, hi: int, keep: int -> bool): (r: seq<int>)
    ensures forall p :: p in r <==> lo <= p <= hi && keep(p)
    ensures forall a, b :: 0 <= a < b < |r| ==> r[a] < r[b]
    ensures |r| <= Max(0, hi - lo + 1)
    decreases hi - lo
  {
    if hi < lo then []
    else
      var rest := Select(lo + 1, hi, keep);
      if keep(lo) then
        assert forall k :: 0 <= k < |rest| ==> rest[k] in rest;
        assert forall k :: 0 <= k < |rest| ==> lo < rest[k];
        [lo] + rest
      else rest
  }

  /** The condition for the button of index `i` (BlogPage.tsx:179-183). */
  predicate ButtonShown(i: int, currentPage: int, totalPages: int) {
    i == 0 || i == totalPages - 1 || (currentPage - 2 <= i && i <= currentPage + 2)
  }

  /**
   * The labels `i + 1` of the buttons drawn for the indices
   * `0 .. min(totalPages, 5) - 1` (BlogPage.tsx:177-195).
   */
  function PageButtons(currentPage: int, totalPages: int): seq<int> {
    Select(1, Min(totalPages, 5), p => ButtonShown(p - 1, currentPage, totalPages))
  }

  /** Never more than five buttons, in increasing order, labelled within `1..min(totalPages, 5)`. */
  lemma PageButtonsBounded(currentPage: int, totalPages: int)
    ensures |PageButtons(currentPage, totalPages)| <= 5
    ensures forall p :: p in PageButtons(currentPage, totalPages) ==> 1 <= p <= Min(totalPages, 5)
    ensures forall a, b :: 0 <= a < b < |PageButtons(currentPage, totalPages)| ==>
              PageButtons(currentPage, totalPages)[a] < PageButtons(currentPage, totalPages)[b]
  {
  }

  /** With more than five pages, the last page has no button, and neither has a current page above five. */
  lemma PageButtonsMissPages(currentPage: int, totalPages: int)
    ensures totalPages > 5 ==> totalPages !in PageButtons(currentPage, totalPages)
    ensures currentPage > 5 ==> currentPage !in PageButtons(currentPage, totalPages)
  {
  }

  /** On page 10 of 10 only the button for page 1 is drawn. */
  lemma LastOfTenPages()
    ensures PageButtons(10, 10) == [1]
  {
    var keep := p => ButtonShown(p - 1, 10, 10);
    assert Select(5, 5, keep) == [];
    assert Select(4, 5, keep) == [];
    assert Select(3, 5, keep) == [];
    assert Select(2, 5, keep) == [];
  }

  /** The evident intent: page 1, the last page, and the pages within two of the current one. */
  predicate IntendedShown(page: int, currentPage: int, totalPages: int) {
    page == 1 || page == totalPages || (currentPage - 2 <= page && page <= currentPage + 2)
  }

  function IntendedButtons(currentPage: int, totalPages: int): seq<int> {
    Select(1, totalPages, p => IntendedShown(p, currentPage, totalPages))
  }

  /** The intended buttons always include the first, the last and the current page. */
  lemma IntendedButtonsShowEnds(currentPage: int, totalPages: int)
    requires 1 <= currentPage <= totalPages
    ensures 1 in IntendedButtons(currentPage, totalPages)
    ensures totalPages in IntendedButtons(currentPage, totalPages)
    ensures currentPage in IntendedButtons(currentPage, totalPages)
    ensures forall p :: p in IntendedButtons(currentPage, totalPages) ==> 1 <= p <= totalPages
  {
  }

  /** There are at most seven intended buttons: the two ends and five around the current page. */
  lemma IntendedButtonsAtMostSeven(currentPage: int, totalPages: int)
    ensures |IntendedButtons(currentPage, totalPages)| <= 7
  {
    var r := IntendedButtons(currentPage, totalPages);
    var allowed := {1, totalPages, currentPage - 2, currentPage - 1, currentPage, currentPage + 1, currentPage + 2};
    assert forall p :: p in r ==> p in allowed;
    DisplaySize(allowed, 1, totalPages, currentPage);
    DistinctInSet(r, allowed);
  }

  lemma DisplaySize(s: set<int>, a: int, b: int, c: int)
    requires s == {a, b, c - 2, c - 1, c, c + 1, c + 2}
    ensures |s| <= 7
  {
    var s1 := {a, b};
    var s2 := {c - 2, c - 1, c};
    var s3 := {c + 1, c + 2};
    assert s == s1 + s2 + s3;
    assert |s1| <= 2 && |s2| == 3 && |s3| == 2;
    assert |s1 + s2| <= |s1| + |s2|;
    assert |s1 + s2 + s3| <= |s1 + s2| + |s3|;
  }

  /** A strictly increasing sequence inside a set is no longer than the set. */
  lemma {:induction false} DistinctInSet(r: seq<int>, s: set<int>)
    requires forall a, b :: 0 <= a < b < |r| ==> r[a] < r[b]
    requires forall p :: p in r ==> p in s
    ensures |r| <= |s|
    decreases |r|
  {
    if r != [] {
      var rest := r[1..];
      assert forall p :: p in rest ==> p in s - {r[0]} by {
        forall p | p in rest ensures p in s - {r[0]} {
          var k :| 0 <= k < |rest| && rest[k] == p;
          assert r[k + 1] == p && r[0] < r[k + 1];
        }
      }
      DistinctInSet(rest, s - {r[0]});
      assert r[0] in s;
      assert |s - {r[0]}| == |s| - 1;
    }
  }

  // --------------------------------------------------------------- heading

  /** `categories.find(c => c.slug === slug)?.name || slug` */
  function CategoryLabel(categories: seq<Category>, slug: string): (name: string)
    ensures (forall i :: 0 <= i < |categories| ==> categories[i].slug != slug) ==> name == slug
    ensures forall i :: FirstWithSlug(categories, slug, i) ==>
              name == if categories[i].name != "" then categories[i].name else slug
  {
    var found := FindCategory(categories, slug);
    if found.Some? && categories[found.value].name != "" then categories[found.value].name else slug
  }

  /** The page heading (BlogPage.tsx:77-85). */
  function Heading(params: Params, categories: seq<Category>): (h: string)
    ensures Present(params, "category") ==> h == "Category: " + CategoryLabel(categories, params["category"])
    ensures !Present(params, "category") && Present(params, "tag") ==> h == "Tag: " + params["tag"]
    ensures !Present(params, "category") && !Present(params, "tag") && Present(params, "search") ==>
              h == "Search Results for \"" + params["search"] + "\""
    ensures !Present(params, "category") && !Present(params, "tag") && !Present(params, "search") ==>
              h == "Latest Blog Posts"
  {
    if Present(params, "category") then "Category: " + CategoryLabel(categories, params["category"])
    else if Present(params, "tag") then "Tag: " + params["tag"]
    else if Present(params, "search") then "Search Results for \"" + params["search"] + "\""
    else "Latest Blog Posts"
  }

  /**
   * Priority: the heading is decided by the first of category, tag and
   * search that is present; the parameters after it do not matter.
   */
  lemma HeadingPriority(p: Params, q: Params, categories: seq<Category>)
    requires Get(p, "category") == Get(q, "category")
    requires !Present(p, "category") ==> Get(p, "tag") == Get(q, "tag")
    requires !Present(p, "category") && !Present(p, "tag") ==> Get(p, "search") == Get(q, "search")
    ensures Heading(p, categories) == Heading(q, categories)
  {
  }

  // ------------------------------------------------------------ the page

  /** `handleSearch`'s parameter update: set `search` to the query when it is non-empty, else delete it. */
  function SearchedParams(params: Params, query: string): (r: Params)
    ensures query != "" ==> "search" in r && r["search"] == query
    ensures query == "" ==> "search" !in r
    ensures SameElsewhere(params, r, {"search"})
  {
    if query != "" then params["search" := query] else params - {"search"}
  }

  class Page {
    /** The router's parameters, read once: `pushState` does not update them. */
    const searchParams: Params
    var searchQuery: string
    var currentPage: int
    var totalPosts: int
    var posts: seq<ListedPost>
    var categories: seq<Category>
    /** The query string last written to the address bar. */
    var location: Params

    constructor (params: Params)
      ensures searchParams == params && location == params
      ensures searchQuery == "" && currentPage == 1 && totalPosts == 0 && posts == [] && categories == []
    {
      searchParams, location := params, params;
      searchQuery, currentPage, totalPosts, posts, categories := "", 1, 0, [], [];
    }

    method EditQuery(s: string)
      modifies this`searchQuery
      ensures searchQuery == s
    {
      searchQuery := s;
    }

    /** `handleSearch` (BlogPage.tsx:53-66): the URL gets the search, and the page goes back to 1. */
    method HandleSearch()
      modifies this`currentPage, this`location
      ensures location == SearchedParams(searchParams, searchQuery)
      ensures currentPage == 1
    {
      location := SearchedParams(searchParams, searchQuery);
      currentPage := 1;
    }

    /** "View All Posts" (BlogPage.tsx:217-220). */
    method ViewAllPosts()
      modifies this`searchQuery, this`location
      ensures searchQuery == "" && location == map[]
    {
      searchQuery := "";
      location := map[];
    }

    method PreviousPage()
      modifies this`currentPage
      ensures currentPage == Previous(old(currentPage))
    {
      currentPage := Previous(currentPage);
    }

    method NextPage()
      modifies this`currentPage
      ensures currentPage == Next(old(currentPage), TotalPages(totalPosts))
    {
      currentPage := Next(currentPage, TotalPages(totalPosts));
    }

    /** A click on a drawn page button (BlogPage.tsx:188). */
    method ChoosePage(page: int)
      requires page in PageButtons(currentPage, TotalPages(totalPosts))
      modifies this`currentPage
      ensures currentPage == page && 1 <= currentPage <= 5
    {
      currentPage := page;
    }

    /** The options the fetch effect passes to `getPosts` (BlogPage.tsx:29-35). */
    function FetchOptions(): (o: PostsOptions)
      reads this
      ensures (Request(o).from, Request(o).to) == RowRange(currentPage, PostsPerPage)
      ensures forall s :: CategoryIs(s) in Request(o).conditions <==> Truthy(searchParams, "category") == Some(s)
      ensures forall s :: HasTag(s) in Request(o).conditions <==> Truthy(searchParams, "tag") == Some(s)
      ensures forall s :: Matches(s) in Request(o).conditions <==> Truthy(searchParams, "search") == Some(s)
      ensures !Request(o).ascending
    {
      PostsOptions(Some(currentPage), Some(PostsPerPage),
                   Truthy(searchParams, "category"), Truthy(searchParams, "tag"), Truthy(searchParams, "search"),
                   None, None, None, None)
    }

    /** The fetch effect's state updates once both requests have returned (BlogPage.tsx:40-42). */
    method OnFetched(result: PostsPage, fetchedCategories: seq<Category>)
      modifies this`posts, this`categories, this`totalPosts
      ensures posts == result.posts && categories == fetchedCategories && totalPosts == result.total
    {
      posts := result.posts;
      categories := fetchedCategories;
      totalPosts := result.total;
    }
  }
}
