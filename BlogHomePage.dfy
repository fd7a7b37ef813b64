/**
 * The blog home page (`BlogHomePage.tsx`): the page number and filters
 * read from the URL, the parameter update of a page change, the headings
 * and the conditions for the featured sections.
 */
module BlogHomePage {
  import opened Wrappers
  import opened Text
  import opened SearchParams
  import opened BlogService
  import BlogNavigation

  const PostsPerPage := 9

  /** `parseInt(searchParams.get('page') || '1', 10)`; `None` stands for NaN (BlogHomePage.tsx:26). */
  function PageOf(params: Params): (page: Option<int>)
    ensures !Present(params, "page") ==> page == Some(1)
    ensures Present(params, "page") ==> page == ParseInt(params["page"])
  {
    var raw := if Present(params, "page") then params["page"] else "1";
    ParseIntOne();
    ParseInt(raw)
  }

  /** `Boolean(categorySlug || tagSlug || searchQuery)` (BlogHomePage.tsx:95). */
  predicate HasActiveFilters(params: Params) {
    Present(params, "category") || Present(params, "tag") || Present(params, "search")
  }

  /** The featured posts and the category section show on page 1 without filters (BlogHomePage.tsx:123, 211). */
  predicate ShowFeatured(params: Params) {
    PageOf(params) == Some(1) && !HasActiveFilters(params)
  }

  /** `handlePageChange`'s update: `page` becomes the number's decimal string (BlogHomePage.tsx:82-87). */
  function PageParams(params: Params, page: int): (r: Params)
    ensures "page" in r && r["page"] == IntToString(page)
    ensures SameElsewhere(params, r, {"page"})
  {
    params["page" := IntToString(page)]
  }

  /** After a page change the page read back from the URL is the chosen one, and the filters are as before. */
  lemma PageChangeRoundTrip(params: Params, page: int)
    ensures PageOf(PageParams(params, page)) == Some(page)
    ensures HasActiveFilters(PageParams(params, page)) == HasActiveFilters(params)
  {
    IntToStringRoundTrip(page);
    assert IntToString(page) != "" by {
      if page < 0 { assert IntToString(page)[0] == '-'; } else { assert |NatToString(page)| > 0; }
    }
  }

  /** Without filters, a change to page 1 brings the featured sections back, and any other page hides them. */
  lemma PageChangeShowsFeatured(params: Params, page: int)
    requires !HasActiveFilters(params)
    ensures ShowFeatured(PageParams(params, page)) <==> page == 1
  {
    PageChangeRoundTrip(params, page);
  }

  /** `categories.find(c => c.slug === categorySlug)?.name` when there is a category slug (BlogHomePage.tsx:98-100). */
  function ActiveCategory(params: Params, categories: seq<Category>): (name: Option<string>)
    ensures name.Some? ==> Present(params, "category")
    ensures name.Some? ==> exists i :: FirstWithSlug(categories, params["category"], i) && categories[i].name == name.value
    ensures Present(params, "category") ==>
              forall i :: FirstWithSlug(categories, params["category"], i) ==> name == Some(categories[i].name)
    ensures Present(params, "category") && (exists i :: 0 <= i < |categories| && categories[i].slug == params["category"]) ==> name.Some?
  {
    if Present(params, "category") then
      var found := FindCategory(categories, params["category"]);
      if found.Some? then Some(categories[found.value].name) else None
    else None
  }

  /** A known category with a non-empty name: JavaScript's truthy `activeCategory`. */
  predicate ShowsCategory(params: Params, categories: seq<Category>) {
    var name := ActiveCategory(params, categories);
    name.Some? && name.value != ""
  }

  /** `tagSlug.replace(/-/g, ' ')` */
  function DashesToSpaces(s: string): (r: string)
    ensures |r| == |s|
    ensures forall i :: 0 <= i < |s| ==> r[i] == if s[i] == '-' then ' ' else s[i]
  {
    seq(|s|, i requires 0 <= i < |s| => if s[i] == '-' then ' ' else s[i])
  }

  /** The hero heading (BlogHomePage.tsx:106-114). */
  function Heading(params: Params, categories: seq<Category>): (h: string)
    ensures ShowsCategory(params, categories) ==> h == ActiveCategory(params, categories).value
    ensures !ShowsCategory(params, categories) && Present(params, "search") ==>
              h == "Search Results for \"" + params["search"] + "\""
    ensures !ShowsCategory(params, categories) && !Present(params, "search") && Present(params, "tag") ==>
              h == "#" + DashesToSpaces(params["tag"])
    ensures !ShowsCategory(params, categories) && !Present(params, "search") && !Present(params, "tag") ==>
              h == "Latest Blog Posts"
  {
    if ShowsCategory(params, categories) then ActiveCategory(params, categories).value
    else if Present(params, "search") then "Search Results for \"" + params["search"] + "\""
    else if Present(params, "tag") then "#" + DashesToSpaces(params["tag"])
    else "Latest Blog Posts"
  }

  /** Priority: a shown category hides the search, and a search hides the tag. */
  lemma HeadingPriority(p: Params, q: Params, categories: seq<Category>)
    requires Get(p, "category") == Get(q, "category")
    requires !ShowsCategory(p, categories) ==> Get(p, "search") == Get(q, "search")
    requires !ShowsCategory(p, categories) && !Present(p, "search") ==> Get(p, "tag") == Get(q, "tag")
    ensures Heading(p, categories) == Heading(q, categories)
  {
    assert ActiveCategory(p, categories) == ActiveCategory(q, categories);
  }

  lemma DashesToSpacesExample()
    ensures DashesToSpaces("random-chat") == "random chat"
  {
  }

  /** With only a tag in the URL, the heading is `#` and the slug with its dashes shown as spaces. */
  lemma TagHeading(slug: string, categories: seq<Category>)
    requires slug != ""
    ensures Heading(map["tag" := slug], categories) == "#" + DashesToSpaces(slug)
  {
  }

  /** The "Random Chat" tag button titles the page "#random chat". */
  lemma RandomChatHeading(categories: seq<Category>)
    ensures Heading(map["tag" := BlogNavigation.TagSlug("Random Chat")], categories) == "#random chat"
  {
    BlogNavigation.TagSlugExample();
    RandomChatSlugHeading(categories);
  }

  lemma RandomChatSlugHeading(categories: seq<Category>)
    ensures Heading(map["tag" := "random-chat"], categories) == "#random chat"
  {
    TagHeading("random-chat", categories);
    DashesToSpacesExample();
  }

  /** `totalPosts === 1 ? 'post' : 'posts'` (BlogHomePage.tsx:117). */
  function PostWord(totalPosts: int): (w: string)
    ensures w == "post" <==> totalPosts == 1
    ensures w == "post" || w == "posts"
  {
    if totalPosts == 1 then "post" else "posts"
  }

  /** The line under the heading (BlogHomePage.tsx:115-119). */
  function Subheading(params: Params, totalPosts: int): (s: string)
    ensures Present(params, "search") ==>
              s == "Found " + IntToString(totalPosts) + " " + PostWord(totalPosts) + " matching your search"
    ensures !Present(params, "search") ==>
              s == "Discover the latest news, tips, and stories about online chat and social connections."
  {
    if Present(params, "search") then "Found " + IntToString(totalPosts) + " " + PostWord(totalPosts) + " matching your search"
    else "Discover the latest news, tips, and stories about online chat and social connections."
  }

  /** The list heading (BlogHomePage.tsx:163-165). */
  function SectionTitle(params: Params, categories: seq<Category>): (t: string)
    ensures t == "Filtered Posts" <==>
              ShowsCategory(params, categories) || Present(params, "tag") || Present(params, "search")
    ensures t == "Filtered Posts" || t == "Latest Posts"
  {
    if ShowsCategory(params, categories) || Present(params, "tag") || Present(params, "search") then "Filtered Posts"
    else "Latest Posts"
  }

  /** "Filtered Posts" implies active filters; an unknown category slug alone gives active filters with "Latest Posts". */
  lemma FilteredTitleMeansFilters(params: Params, categories: seq<Category>)
    ensures SectionTitle(params, categories) == "Filtered Posts" ==> HasActiveFilters(params)
  {
  }

  const HomeTags := ["omegle", "chatroulette", "random chat", "video chat",
                     "stranger chat", "online dating", "make friends", "anonymous chat"]

  class HomePage {
    var params: Params
    var posts: seq<ListedPost>
    var categories: seq<Category>
    var totalPosts: int

    constructor (initial: Params)
      ensures params == initial && posts == [] && categories == [] && totalPosts == 0
    {
      params, posts, categories, totalPosts := initial, [], [], 0;
    }

    function CurrentPage(): Option<int>
      reads this
    {
      PageOf(params)
    }

    /** `handlePageChange` (BlogHomePage.tsx:82-87). */
    method HandlePageChange(page: int)
      modifies this`params
      ensures params == PageParams(old(params), page)
      ensures CurrentPage() == Some(page)
    {
      params := PageParams(params, page);
      PageChangeRoundTrip(old(params), page);
    }

    /** `clearFilters`: navigate to `/blog` (BlogHomePage.tsx:90-92). */
    method ClearFilters()
      modifies this`params
      ensures params == map[]
      ensures !HasActiveFilters(params) && CurrentPage() == Some(1)
    {
      params := map[];
    }

    /** A popular-tag button: navigate to `/blog?tag=<slug>` (BlogHomePage.tsx:149). */
    method ChooseTag(tag: string)
      modifies this`params
      ensures params == map["tag" := BlogNavigation.TagSlug(tag)]
      ensures BlogNavigation.TagActive(params, tag)
    {
      params := map["tag" := BlogNavigation.TagSlug(tag)];
    }

    /** The options the fetch effect passes to `getPosts` (BlogHomePage.tsx:45-51), for a page that parsed. */
    function FetchOptions(): (o: PostsOptions)
      reads this
      requires CurrentPage().Some?
      ensures (Request(o).from, Request(o).to) == RowRange(CurrentPage().value, PostsPerPage)
      ensures forall s :: CategoryIs(s) in Request(o).conditions <==> Truthy(params, "category") == Some(s)
      ensures forall s :: HasTag(s) in Request(o).conditions <==> Truthy(params, "tag") == Some(s)
      ensures forall s :: Matches(s) in Request(o).conditions <==> Truthy(params, "search") == Some(s)
    {
      PostsOptions(CurrentPage(), Some(PostsPerPage),
                   Truthy(params, "category"), Truthy(params, "tag"), Truthy(params, "search"),
                   None, None, None, None)
    }

    /** The fetch effect after both requests returned (BlogHomePage.tsx:56-60). */
    method OnFetched(result: PostsPage, fetchedCategories: seq<Category>)
      modifies this`posts, this`categories, this`totalPosts
      ensures posts == result.posts && categories == fetchedCategories && totalPosts == result.total
    {
      posts := result.posts;
      categories := fetchedCategories;
      totalPosts := result.total;
    }

    /** The fetch effect's catch (BlogHomePage.tsx:61-66): no posts, no total, the categories kept. */
    method OnFetchFailed()
      modifies this`posts, this`totalPosts
      ensures posts == [] && totalPosts == 0
    {
      posts := [];
      totalPosts := 0;
    }
  }
}
