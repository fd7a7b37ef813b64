/**
 * The blog data service (`blogService.ts`) without its database client:
 * the row range a page asks for, the description of the posts query the
 * options produce, the flattening of joined rows into posts, and the
 * defaults every getter returns on an error.
 */
module BlogService {
  import opened Wrappers
  import opened Text

  datatype Category = Category(id: string, name: string, slug: string)

  datatype Tag = Tag(id: string, name: string, slug: string)

  /** An entry of the `blog_post_tags` join with its `blog_tags` row. */
  datatype PostTagRow = PostTagRow(tag: Tag)

  /**
   * A `blog_posts` row as the joined select returns it. The joined
   * `blog_categories` and `blog_post_tags` fields may be missing.
   */
  datatype PostRow = PostRow(id: string, title: string, slug: string, excerpt: string,
                             joinedCategory: Option<Category>, joinedTags: Option<seq<PostTagRow>>)

  /** A post of a listing: the spread row keeps its joined fields beside `category` and `tags`. */
  datatype ListedPost = ListedPost(row: PostRow, category: Option<Category>, tags: seq<Tag>)

  /** A post fetched by slug: the joined fields have been deleted. */
  datatype Post = Post(id: string, title: string, slug: string, excerpt: string,
                       category: Option<Category>, tags: seq<Tag>)

  /** The outcome of a query that returns data or an error. */
  datatype Response<T> = Error | Data(value: T)

  /** The outcome of the counted posts query. */
  datatype CountedResponse = CountedError | Rows(data: Option<seq<PostRow>>, count: Option<int>)

  datatype PostsPage = PostsPage(posts: seq<ListedPost>, total: int)

  // ------------------------------------------------------------ row ranges

  /** The inclusive row range `[from, to]` of a page (blogService.ts:163-164). */
  function RowRange(page: int, limit: int): (r: (int, int))
    ensures r.1 - r.0 + 1 == limit
  {
    var from := (page - 1) * limit;
    (from, from + limit - 1)
  }

  lemma FirstPageStartsAtZero(limit: int)
    ensures RowRange(1, limit).0 == 0
  {
  }

  /** The row after the last one of a page is the first one of the next page. */
  lemma ConsecutivePagesAdjacent(page: int, limit: int)
    ensures RowRange(page + 1, limit).0 == RowRange(page, limit).1 + 1
  {
    assert page * limit == (page - 1) * limit + limit;
  }

  /** With a positive limit, the ranges of two different pages do not overlap. */
  lemma PagesDisjoint(p: int, q: int, limit: int)
    requires limit >= 1 && p < q
    ensures RowRange(p, limit).1 < RowRange(q, limit).0
  {
    PagesAhead(p, q - p, limit);
  }

  /** With a positive limit, a page at least one further on starts at least a page later. */
  lemma {:induction false} PagesAhead(p: int, k: nat, limit: int)
    requires limit >= 1 && k >= 1
    ensures RowRange(p + k, limit).0 >= RowRange(p, limit).0 + limit
    decreases k
  {
    ConsecutivePagesAdjacent(p + k - 1, limit);
    if k > 1 {
      PagesAhead(p, k - 1, limit);
    } else {
      ConsecutivePagesAdjacent(p, limit);
    }
  }

  // --------------------------------------------------------- posts request

  datatype SortOrder = Asc | Desc

  /** The options object of `getPosts`; `None` is an omitted option. */
  datatype PostsOptions = PostsOptions(
    page: Option<int>, limit: Option<int>,
    categorySlug: Option<string>, tagSlug: Option<string>, searchQuery: Option<string>,
    featuredOnly: Option<bool>, trendingOnly: Option<bool>,
    sortBy: Option<string>, sortOrder: Option<SortOrder>)

  const NoOptions := PostsOptions(None, None, None, None, None, None, None, None, None)

  const DefaultPage := 1
  const DefaultLimit := 10
  const DefaultSortBy := "published_at"

  /** A condition the posts query applies, in the order the builder adds them. */
  datatype Condition =
    | Published
    | CategoryIs(slug: string)
    | HasTag(slug: string)
    | Featured
    | Trending
    | Matches(query: string)

  /** What the built query asks the database for. */
  datatype PostsRequest = PostsRequest(conditions: seq<Condition>, orderBy: string, ascending: bool, from: int, to: int)

  function OrElse<T>(o: Option<T>, default: T): T {
    if o.Some? then o.value else default
  }

  /** A string option that JavaScript's `if (x)` accepts: given and non-empty. */
  predicate Given(o: Option<string>) {
    o.Some? && o.value != ""
  }

  function When(c: bool, cond: Condition): seq<Condition> {
    if c then [cond] else []
  }

  /** The query `getPosts` builds (blogService.ts:142-203). */
  function Request(o: PostsOptions): (q: PostsRequest)
    ensures q.conditions != [] && q.conditions[0] == Published
    ensures forall s :: CategoryIs(s) in q.conditions <==> Given(o.categorySlug) && s == o.categorySlug.value
    ensures forall s :: HasTag(s) in q.conditions <==> Given(o.tagSlug) && s == o.tagSlug.value
    ensures forall s :: Matches(s) in q.conditions <==> Given(o.searchQuery) && s == o.searchQuery.value
    ensures Featured in q.conditions <==> o.featuredOnly == Some(true)
    ensures Trending in q.conditions <==> o.trendingOnly == Some(true)
    ensures q.ascending <==> o.sortOrder == Some(Asc)
    ensures q.orderBy == OrElse(o.sortBy, DefaultSortBy)
    ensures (q.from, q.to) == RowRange(OrElse(o.page, DefaultPage), OrElse(o.limit, DefaultLimit))
  {
    var range := RowRange(OrElse(o.page, DefaultPage), OrElse(o.limit, DefaultLimit));
    var conditions :=
      [Published]
      + When(Given(o.categorySlug), CategoryIs(OrElse(o.categorySlug, "")))
      + When(Given(o.tagSlug), HasTag(OrElse(o.tagSlug, "")))
      + When(o.featuredOnly == Some(true), Featured)
      + When(o.trendingOnly == Some(true), Trending)
      + When(Given(o.searchQuery), Matches(OrElse(o.searchQuery, "")));
    PostsRequest(conditions, OrElse(o.sortBy, DefaultSortBy), o.sortOrder == Some(Asc), range.0, range.1)
  }

  /** Without options: published posts only, newest first, rows 0 to 9. */
  lemma DefaultRequest()
    ensures Request(NoOptions) == PostsRequest([Published], "published_at", false, 0, 9)
  {
  }

  // ------------------------------------------------------------ formatting

  /** `post.blog_post_tags?.map(pt => pt.blog_tags) || []` */
  function TagsOf(joined: Option<seq<PostTagRow>>): (tags: seq<Tag>)
    ensures joined.None? ==> tags == []
    ensures joined.Some? ==> |tags| == |joined.value|
    ensures joined.Some? ==> forall i :: 0 <= i < |tags| ==> tags[i] == joined.value[i].tag
  {
    if joined.None? then [] else seq(|joined.value|, i requires 0 <= i < |joined.value| => joined.value[i].tag)
  }

  /** The tags of the join concatenate when the join does: order is kept. */
  lemma TagsOfAppend(a: seq<PostTagRow>, b: seq<PostTagRow>)
    ensures TagsOf(Some(a + b)) == TagsOf(Some(a)) + TagsOf(Some(b))
  {
  }

  /** The listing's formatting of the rows (blogService.ts:213-217); missing data is no rows. */
  function FormatPosts(data: Option<seq<PostRow>>): (posts: seq<ListedPost>)
    ensures data.None? ==> posts == []
    ensures data.Some? ==> |posts| == |data.value|
    ensures data.Some? ==> forall i :: 0 <= i < |posts| ==>
              && posts[i].row == data.value[i]
              && posts[i].category == data.value[i].joinedCategory
              && posts[i].tags == TagsOf(data.value[i].joinedTags)
  {
    if data.None? then []
    else
      seq(|data.value|, i requires 0 <= i < |data.value| =>
          ListedPost(data.value[i], data.value[i].joinedCategory, TagsOf(data.value[i].joinedTags)))
  }

  /** `getPosts`'s result (blogService.ts:205-222). */
  function PostsResult(resp: CountedResponse): (r: PostsPage)
    ensures resp.CountedError? ==> r.posts == [] && r.total == 0
    ensures resp.Rows? ==> r.posts == FormatPosts(resp.data)
    ensures resp.Rows? && resp.count.None? ==> r.total == 0
    ensures resp.Rows? && resp.count.Some? ==> r.total == resp.count.value
  {
    if resp.CountedError? then PostsPage([], 0)
    else PostsPage(FormatPosts(resp.data), OrElse(resp.count, 0))
  }

  /** The single post's formatting with the joined fields removed (blogService.ts:248-258). */
  function FormatPost(row: PostRow): (p: Post)
    ensures p.id == row.id && p.title == row.title && p.slug == row.slug && p.excerpt == row.excerpt
    ensures p.category == row.joinedCategory && p.tags == TagsOf(row.joinedTags)
  {
    Post(row.id, row.title, row.slug, row.excerpt, row.joinedCategory, TagsOf(row.joinedTags))
  }

  /** A post read by slug carries the same category and tags as the same row in a listing. */
  lemma FormatPostAgreesWithListing(row: PostRow)
    ensures var listed := FormatPosts(Some([row]))[0];
            FormatPost(row).category == listed.category && FormatPost(row).tags == listed.tags
  {
  }

  /** `getPostBySlug`'s result (blogService.ts:242-258): `None` for `null`. */
  function PostBySlug(resp: Response<PostRow>): (r: Option<Post>)
    ensures resp.Error? <==> r.None?
    ensures resp.Data? ==> r == Some(FormatPost(resp.value))
  {
    if resp.Error? then None else Some(FormatPost(resp.value))
  }

  // -------------------------------------------------------------- getters

  /**
   * The list getters: `getCategories`, `getTags`, `getFeaturedPosts`,
   * `getTrendingPosts` and `searchPosts` return the rows, or `[]` on an error.
   */
  function ListOrEmpty<T>(resp: Response<seq<T>>): (r: seq<T>)
    ensures resp.Error? ==> r == []
    ensures resp.Data? ==> r == resp.value
  {
    if resp.Error? then [] else resp.value
  }

  /** `getCategoryBySlug` (blogService.ts:75-87): the row, or `null` on an error. */
  function CategoryBySlug(resp: Response<Category>): (r: Option<Category>)
    ensures resp.Error? <==> r.None?
    ensures resp.Data? ==> r == Some(resp.value)
  {
    if resp.Error? then None else Some(resp.value)
  }

  /** `categories.find(c => c.slug === slug)`: the first category with that slug. */
  /** `i` is the first category whose slug is `slug`, the one `categories.find` returns. */
  predicate FirstWithSlug(categories: seq<Category>, slug: string, i: int) {
    0 <= i < |categories| && categories[i].slug == slug
    && forall k :: 0 <= k < i ==> categories[k].slug != slug
  }

  function FindCategory(categories: seq<Category>, slug: string): (r: Option<nat>)
    ensures r.Some? ==> r.value < |categories| && categories[r.value].slug == slug
    ensures r.Some? ==> forall i :: 0 <= i < r.value ==> categories[i].slug != slug
    ensures r.None? <==> forall i :: 0 <= i < |categories| ==> categories[i].slug != slug
  {
    if categories == [] then None
    else if categories[0].slug == slug then Some(0)
    else
      var rest := FindCategory(categories[1..], slug);
      assert forall i :: 1 <= i < |categories| ==> categories[i] == categories[1..][i - 1];
      if rest.None? then None else Some(rest.value + 1)
  }

  /**
   * `trackSearchTerm` (blogService.ts:275-279): the term passed to the
   * counter, untrimmed, or `None` when no call is made.
   */
  function TrackSearchTerm(term: string): (call: Option<string>)
    ensures call.None? <==> AllSpace(term)
    ensures call.Some? ==> call.value == term
  {
    if IsBlank(term) then None else Some(term)
  }
}
