/**
 * The paginated post list (`BlogPostList.tsx`): the page count, the
 * window of page numbers, the "Showing X to Y of Z" range, the disabled
 * Previous/Next buttons, the ellipses, and the class-name joiner `cn`.
 */
module BlogPostList {
  import opened Numbers
  import opened Text

  const DefaultPostsPerPage := 9
  const MaxVisiblePages := 5

  /** `Math.ceil(totalPosts / postsPerPage)` (BlogPostList.tsx:37). */
  function TotalPages(totalPosts: int, postsPerPage: int): (n: int)
    requires postsPerPage > 0
    ensures (n - 1) * postsPerPage < totalPosts <= n * postsPerPage
  {
    CeilDiv(totalPosts, postsPerPage)
  }

  /** Pagination is drawn exactly when there are more posts than fit on one page. */
  lemma HasPaginationIff(totalPosts: nat, postsPerPage: int)
    requires postsPerPage > 0
    ensures TotalPages(totalPosts, postsPerPage) > 1 <==> totalPosts > postsPerPage
    ensures TotalPages(totalPosts, postsPerPage) >= 0
  {
    CeilDivPositive(totalPosts, postsPerPage);
  }

  // ---------------------------------------------------------- page window

  /** The first page of the window after the clamp at lines 44-50. */
  function WindowStart(currentPage: int, totalPages: int): int {
    var start := Max(1, currentPage - MaxVisiblePages / 2);
    if start + MaxVisiblePages - 1 > totalPages then Max(1, totalPages - MaxVisiblePages + 1) else start
  }

  /** The last page of the window after the clamp at lines 44-50. */
  function WindowEnd(currentPage: int, totalPages: int): int {
    var start := Max(1, currentPage - MaxVisiblePages / 2);
    if start + MaxVisiblePages - 1 > totalPages then totalPages else start + MaxVisiblePages - 1
  }

  /** The consecutive pages `lo, lo + 1, ..., hi` (empty when `hi < lo`). */
  function Run(lo: int, hi: int): (r: seq<int>)
    ensures |r| == Max(0, hi - lo + 1)
    ensures forall i :: 0 <= i < |r| ==> r[i] == lo + i
  {
    if hi < lo then [] else seq(hi - lo + 1, i requires 0 <= i <= hi - lo => lo + i)
  }

  function PageWindow(currentPage: int, totalPages: int): seq<int> {
    Run(WindowStart(currentPage, totalPages), WindowEnd(currentPage, totalPages))
  }

  /**
   * `getPageNumbers` (BlogPostList.tsx:41-57): at most five consecutive
   * ascending pages, all between 1 and `totalPages`, that include the
   * current page whenever it is a valid one.
   */
  method GetPageNumbers(currentPage: int, totalPages: int) returns (pageNumbers: seq<int>)
    ensures pageNumbers == PageWindow(currentPage, totalPages)
    ensures |pageNumbers| == Min(MaxVisiblePages, Max(0, totalPages))
    ensures forall i :: 0 <= i < |pageNumbers| ==> pageNumbers[i] == pageNumbers[0] + i
    ensures forall i :: 0 <= i < |pageNumbers| ==> 1 <= pageNumbers[i] <= totalPages
    ensures 1 <= currentPage <= totalPages ==> currentPage in pageNumbers
  {
    pageNumbers := [];
    var startPage := Max(1, currentPage - MaxVisiblePages / 2);
    var endPage := startPage + MaxVisiblePages - 1;
    if endPage > totalPages {
      endPage := totalPages;
      startPage := Max(1, endPage - MaxVisiblePages + 1);
    }
    assert startPage == WindowStart(currentPage, totalPages) && endPage == WindowEnd(currentPage, totalPages);
    var i := startPage;
    while i <= endPage
      invariant startPage <= i <= Max(startPage, endPage + 1)
      invariant pageNumbers == Run(startPage, i - 1)
    {
      pageNumbers := pageNumbers + [i];
      i := i + 1;
    }
    assert pageNumbers == Run(startPage, endPage);
    if 1 <= currentPage <= totalPages {
      WindowInRange(currentPage, totalPages);
      assert pageNumbers[currentPage - startPage] == currentPage;
    }
  }

  // --------------------------------------------------------- showing range

  /** `(currentPage - 1) * postsPerPage + 1` (BlogPostList.tsx:171). */
  function ShowingFirst(currentPage: int, postsPerPage: int): int {
    (currentPage - 1) * postsPerPage + 1
  }

  /** `Math.min(currentPage * postsPerPage, totalPosts)` (BlogPostList.tsx:173). */
  function ShowingLast(currentPage: int, postsPerPage: int, totalPosts: int): (last: int)
    ensures last <= totalPosts
  {
    Min(currentPage * postsPerPage, totalPosts)
  }

  /**
   * On a valid page the range is a non-empty block of at most one page's
   * posts, ending at or before the last post.
   */
  lemma ShowingBounds(currentPage: int, postsPerPage: int, totalPosts: int)
    requires postsPerPage > 0 && 1 <= currentPage <= TotalPages(totalPosts, postsPerPage)
    ensures 1 <= ShowingFirst(currentPage, postsPerPage) <= ShowingLast(currentPage, postsPerPage, totalPosts)
    ensures ShowingLast(currentPage, postsPerPage, totalPosts) - ShowingFirst(currentPage, postsPerPage) < postsPerPage
  {
    var t := TotalPages(totalPosts, postsPerPage);
    MulMonotone(currentPage - 1, t - 1, postsPerPage);
    assert currentPage * postsPerPage == (currentPage - 1) * postsPerPage + postsPerPage;
  }

  /** The ranges of consecutive pages follow on from each other. */
  lemma ShowingAdjacent(currentPage: int, postsPerPage: int, totalPosts: int)
    requires postsPerPage > 0 && 1 <= currentPage < TotalPages(totalPosts, postsPerPage)
    ensures ShowingLast(currentPage, postsPerPage, totalPosts) + 1 == ShowingFirst(currentPage + 1, postsPerPage)
  {
    var t := TotalPages(totalPosts, postsPerPage);
    MulMonotone(currentPage, t - 1, postsPerPage);
    assert currentPage * postsPerPage + 1 == ShowingFirst(currentPage + 1, postsPerPage);
  }

  // ------------------------------------------------------- prev and next

  /** `disabled={currentPage === 1}` (BlogPostList.tsx:183). */
  predicate PreviousDisabled(currentPage: int) {
    currentPage == 1
  }

  /** `disabled={currentPage === totalPages}` (BlogPostList.tsx:240). */
  predicate NextDisabled(currentPage: int, totalPages: int) {
    currentPage == totalPages
  }

  /** From a valid page, an enabled Previous or Next button leads to a valid page. */
  lemma PreviousNextStayInRange(currentPage: int, totalPages: int)
    requires 1 <= currentPage <= totalPages
    ensures !PreviousDisabled(currentPage) ==> 1 <= currentPage - 1 <= totalPages
    ensures !NextDisabled(currentPage, totalPages) ==> 1 <= currentPage + 1 <= totalPages
  {
  }

  // ------------------------------------------------------------ ellipses

  /** What the pagination bar shows between Previous and Next. */
  datatype Item = Page(n: int) | Ellipsis

  /** The page 1 of the window is drawn as "1 ..." when `currentPage > 3` (BlogPostList.tsx:192). */
  predicate StartEllipsis(currentPage: int, totalPages: int) {
    1 in PageWindow(currentPage, totalPages) && currentPage > 3
  }

  /** "... totalPages" is drawn after the window when `currentPage < totalPages - 2` (BlogPostList.tsx:222). */
  predicate EndEllipsis(currentPage: int, totalPages: int) {
    currentPage < totalPages - 2
  }

  function WindowItems(pages: seq<int>, currentPage: int): seq<Item> {
    if pages == [] then []
    else
      (if pages[0] == 1 && currentPage > 3 then [Page(1), Ellipsis] else [Page(pages[0])])
      + WindowItems(pages[1..], currentPage)
  }

  /** The bar as the component draws it (BlogPostList.tsx:190-234). */
  function Bar(currentPage: int, totalPages: int): seq<Item> {
    WindowItems(PageWindow(currentPage, totalPages), currentPage)
    + (if EndEllipsis(currentPage, totalPages) then [Ellipsis, Page(totalPages)] else [])
  }

  /**
   * What a pagination bar is meant to show: page 1 first and the last
   * page last, neighbouring page numbers one apart, and an ellipsis
   * exactly where pages are skipped.
   */
  predicate WellMarked(items: seq<Item>, totalPages: int) {
    && |items| > 0 && items[0] == Page(1) && items[|items| - 1] == Page(totalPages)
    && PagesConsecutive(items)
    && EllipsesOverGaps(items)
  }

  predicate PagesConsecutive(items: seq<Item>) {
    forall k :: 0 <= k < |items| - 1 && items[k].Page? && items[k + 1].Page? ==>
      items[k + 1].n == items[k].n + 1
  }

  predicate EllipsesOverGaps(items: seq<Item>) {
    forall k :: 0 <= k < |items| && items[k].Ellipsis? ==>
      0 < k < |items| - 1 && items[k - 1].Page? && items[k + 1].Page? && items[k + 1].n > items[k - 1].n + 1
  }

  /** The start ellipsis is drawn only when the window already starts at page 1, so it never marks a gap. */
  lemma StartEllipsisOnlyWithoutGap(currentPage: int, totalPages: int)
    requires StartEllipsis(currentPage, totalPages)
    ensures WindowStart(currentPage, totalPages) == 1
  {
  }

  /** "1 ..." shown right before page 2. */
  lemma StartEllipsisWithoutGap()
    ensures Bar(4, 5) == [Page(1), Ellipsis, Page(2), Page(3), Page(4), Page(5)]
    ensures !WellMarked(Bar(4, 5), 5)
  {
    assert PageWindow(4, 5) == [1, 2, 3, 4, 5];
    assert WindowItems([5], 4) == [Page(5)];
    assert WindowItems([4, 5], 4) == [Page(4), Page(5)];
    assert WindowItems([3, 4, 5], 4) == [Page(3), Page(4), Page(5)];
    assert WindowItems([2, 3, 4, 5], 4) == [Page(2), Page(3), Page(4), Page(5)];
    var b := Bar(4, 5);
    assert b[1].Ellipsis? && b[2].n == b[0].n + 1;
  }

  /** The last page drawn twice: in the window and after the end ellipsis. */
  lemma EndEllipsisRepeatsLastPage()
    ensures Bar(1, 4) == [Page(1), Page(2), Page(3), Page(4), Ellipsis, Page(4)]
    ensures !WellMarked(Bar(1, 4), 4)
  {
    assert PageWindow(1, 4) == [1, 2, 3, 4];
    assert WindowItems([4], 1) == [Page(4)];
    assert WindowItems([3, 4], 1) == [Page(3), Page(4)];
    assert WindowItems([2, 3, 4], 1) == [Page(2), Page(3), Page(4)];
    var b := Bar(1, 4);
    assert b[4].Ellipsis? && b[5].n == b[3].n;
  }

  /** Items for the pages `lo..hi`. */
  function Pages(lo: int, hi: int): (r: seq<Item>)
    ensures |r| == Max(0, hi - lo + 1)
    ensures forall i :: 0 <= i < |r| ==> r[i] == Page(lo + i)
  {
    if hi < lo then [] else seq(hi - lo + 1, i requires 0 <= i <= hi - lo => Page(lo + i))
  }

  /**
   * The bar with the evidently intended ellipses: page 1 before the
   * window when the window does not start there, the last page after it
   * when it does not end there, and an ellipsis only over skipped pages.
   */
  function CorrectedBar(currentPage: int, totalPages: int): seq<Item> {
    var s := WindowStart(currentPage, totalPages);
    var e := WindowEnd(currentPage, totalPages);
    Lead(s) + Pages(s, e) + Tail(e, totalPages)
  }

  lemma WindowInRange(currentPage: int, totalPages: int)
    requires totalPages >= 1
    ensures 1 <= WindowStart(currentPage, totalPages) <= WindowEnd(currentPage, totalPages) <= totalPages
    ensures WindowEnd(currentPage, totalPages) - WindowStart(currentPage, totalPages) < MaxVisiblePages
    ensures 1 <= currentPage <= totalPages ==>
              WindowStart(currentPage, totalPages) <= currentPage <= WindowEnd(currentPage, totalPages)
  {
  }

  /** The lead `CorrectedBar` puts before the window starting at `s`. */
  function Lead(s: int): seq<Item> {
    if s > 2 then [Page(1), Ellipsis] else if s == 2 then [Page(1)] else []
  }

  /** The tail `CorrectedBar` puts after the window ending at `e`, with `t` pages. */
  function Tail(e: int, t: int): seq<Item> {
    if e < t - 1 then [Ellipsis, Page(t)] else if e == t - 1 then [Page(t)] else []
  }

  /** A lead, a run of pages and a tail built as `CorrectedBar` builds them are well marked. */
  lemma LeadRunTailWellMarked(s: int, e: int, t: int)
    requires 1 <= s <= e <= t
    ensures WellMarked(Lead(s) + Pages(s, e) + Tail(e, t), t)
  {
    var items := Lead(s) + Pages(s, e) + Tail(e, t);
    LeadRunTailItems(s, e, t);
    LeadRunTailConsecutive(s, e, t);
    LeadRunTailGaps(s, e, t);
    assert items[0] == Page(1);
    assert items[|items| - 1] == Page(t);
  }

  /** Where each item of a corrected bar comes from. */
  lemma LeadRunTailItems(s: int, e: int, t: int)
    requires 1 <= s <= e <= t
    ensures var lead, run, tail := Lead(s), Pages(s, e), Tail(e, t);
            var items := lead + run + tail;
            && |items| == |lead| + |run| + |tail|
            && (forall k :: 0 <= k < |lead| ==> items[k] == lead[k])
            && (forall k :: |lead| <= k < |lead| + |run| ==> items[k] == Page(s + k - |lead|))
            && (forall k :: |lead| + |run| <= k < |items| ==> items[k] == tail[k - |lead| - |run|])
  {
  }

  lemma LeadRunTailConsecutive(s: int, e: int, t: int)
    requires 1 <= s <= e <= t
    ensures PagesConsecutive(Lead(s) + Pages(s, e) + Tail(e, t))
  {
    var lead, run, tail := Lead(s), Pages(s, e), Tail(e, t);
    var items := lead + run + tail;
    LeadRunTailItems(s, e, t);
    forall k | 0 <= k < |items| - 1 && items[k].Page? && items[k + 1].Page?
      ensures items[k + 1].n == items[k].n + 1
    {
    }
  }

  lemma LeadRunTailGaps(s: int, e: int, t: int)
    requires 1 <= s <= e <= t
    ensures EllipsesOverGaps(Lead(s) + Pages(s, e) + Tail(e, t))
  {
    var lead, run, tail := Lead(s), Pages(s, e), Tail(e, t);
    var items := lead + run + tail;
    LeadRunTailItems(s, e, t);
    forall k | 0 <= k < |items| && items[k].Ellipsis?
      ensures 0 < k < |items| - 1 && items[k - 1].Page? && items[k + 1].Page? && items[k + 1].n > items[k - 1].n + 1
    {
    }
  }

  /** The corrected bar is well marked and shows the current page. */
  lemma CorrectedBarWellMarked(currentPage: int, totalPages: int)
    requires totalPages >= 1
    ensures WellMarked(CorrectedBar(currentPage, totalPages), totalPages)
    ensures 1 <= currentPage <= totalPages ==> Page(currentPage) in CorrectedBar(currentPage, totalPages)
  {
    var s := WindowStart(currentPage, totalPages);
    var e := WindowEnd(currentPage, totalPages);
    WindowInRange(currentPage, totalPages);
    LeadRunTailWellMarked(s, e, totalPages);
    if 1 <= currentPage <= totalPages {
      LeadRunTailItems(s, e, totalPages);
      assert CorrectedBar(currentPage, totalPages)[|Lead(s)| + currentPage - s] == Page(currentPage);
    }
  }

  // ---------------------------------------------------------------- cn

  /** `classes.filter(Boolean)`: the given, non-empty class names in order. */
  function Kept(classes: seq<string>): (r: seq<string>)
    ensures forall c :: c in r <==> c in classes && c != ""
    ensures |r| <= |classes|
  {
    if classes == [] then []
    else (if classes[0] != "" then [classes[0]] else []) + Kept(classes[1..])
  }

  /** `cn(...classes)` (BlogPostList.tsx:254-256); an absent class is the empty string here. */
  function Cn(classes: seq<string>): string {
    Join(Kept(classes), " ")
  }

  /** Filtering keeps order: it distributes over concatenation. */
  lemma {:induction false} KeptAppend(a: seq<string>, b: seq<string>)
    ensures Kept(a + b) == Kept(a) + Kept(b)
    decreases |a|
  {
    if a != [] {
      var head := if a[0] != "" then [a[0]] else [];
      assert (a + b)[0] == a[0];
      assert (a + b)[1..] == a[1..] + b;
      assert Kept(a + b) == head + Kept(a[1..] + b);
      KeptAppend(a[1..], b);
      assert Kept(a) == head + Kept(a[1..]);
    } else {
      assert a + b == b;
    }
  }

  /** `cn(a..., b...)` is `cn(a...)` and `cn(b...)` with one space between them when both are non-empty. */
  lemma CnAppend(a: seq<string>, b: seq<string>)
    ensures Kept(a) != [] && Kept(b) != [] ==> Cn(a + b) == Cn(a) + " " + Cn(b)
    ensures Kept(a) == [] ==> Cn(a + b) == Cn(b)
    ensures Kept(b) == [] ==> Cn(a + b) == Cn(a)
  {
    KeptAppend(a, b);
    if Kept(a) != [] && Kept(b) != [] {
      JoinAppend(Kept(a), Kept(b), " ");
    }
    if Kept(b) == [] {
      assert Kept(a) + Kept(b) == Kept(a);
    }
    if Kept(a) == [] {
      assert Kept(a) + Kept(b) == Kept(b);
    }
  }
}
