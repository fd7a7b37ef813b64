/**
 * The blog sidebar (`BlogNavigation.tsx`): the slugs its links point to
 * and which links are highlighted for the current URL parameters.
 */
module BlogNavigation {
  import opened Wrappers
  import opened Text
  import opened SearchParams
  import opened BlogService

  // ------------------------------------------------------------- tag slug

  /** `s.replace(/\s+/g, '-')`: each maximal run of whitespace becomes one `-`. */
  function DashSpaces(s: string): (r: string)
    ensures forall i :: 0 <= i < |r| ==> !IsSpace(r[i])
    ensures |r| <= |s|
    decreases |s|
  {
    if s == [] then []
    else if IsSpace(s[0]) then "-" + DashSpaces(s[LeadingSpaces(s)..])
    else [s[0]] + DashSpaces(s[1..])
  }

  /** A string without whitespace is left as it is. */
  lemma {:induction false} DashSpacesNoSpace(s: string)
    requires forall i :: 0 <= i < |s| ==> !IsSpace(s[i])
    ensures DashSpaces(s) == s
    decreases |s|
  {
    if s != [] {
      DashSpacesNoSpace(s[1..]);
      assert s == [s[0]] + s[1..];
    }
  }

  /**
   * One `-` per run: a word, then a run of whitespace, then the rest,
   * gives the word and a single `-` before the image of the rest.
   */
  lemma {:induction false} DashSpacesRun(a: string, w: string, b: string)
    requires forall i :: 0 <= i < |a| ==> !IsSpace(a[i])
    requires w != [] && AllSpace(w)
    requires b == [] || !IsSpace(b[0])
    ensures DashSpaces(a + w + b) == a + "-" + DashSpaces(b)
    decreases |a|
  {
    var s := a + w + b;
    if a == [] {
      assert s == w + b;
      LeadingSpacesExact(s, |w|);
      assert s[|w|..] == b;
    } else {
      assert s[0] == a[0];
      assert s[1..] == a[1..] + w + b;
      DashSpacesRun(a[1..], w, b);
    }
  }

  /** `LeadingSpaces` is `n` when the first `n` characters are spaces and the next is not. */
  lemma LeadingSpacesExact(s: string, n: nat)
    requires n <= |s|
    requires forall k :: 0 <= k < n ==> IsSpace(s[k])
    requires n < |s| ==> !IsSpace(s[n])
    ensures LeadingSpaces(s) == n
  {
  }

  /** `tag.toLowerCase().replace(/\s+/g, '-')` (BlogNavigation.tsx:73, BlogHomePage.tsx:146). */
  function TagSlug(tag: string): (slug: string)
    ensures forall i :: 0 <= i < |slug| ==> !IsSpace(slug[i])
  {
    DashSpaces(ToLower(tag))
  }

  lemma TagSlugExample()
    ensures TagSlug("Random Chat") == "random-chat"
  {
    LowerRandomChat();
    RandomChatWords();
    DashSpacesRun("random", " ", "chat");
    DashSpacesNoSpace("chat");
    assert "random" + "-" + "chat" == "random-chat";
  }

  /** Lower-casing "Random Chat" gives "random" + " " + "chat". */
  lemma LowerRandomChat()
    ensures ToLower("Random Chat") == "random" + " " + "chat"
  {
  }

  /** Neither word of "random chat" contains whitespace. */
  lemma RandomChatWords()
    ensures forall i :: 0 <= i < |"random"| ==> !IsSpace("random"[i])
    ensures forall i :: 0 <= i < |"chat"| ==> !IsSpace("chat"[i])
  {
  }

  // ----------------------------------------------------------- title slug

  predicate IsSlugChar(c: char) {
    ('a' <= c <= 'z') || ('0' <= c <= '9')
  }

  predicate AllSlugChars(s: string) {
    forall i :: 0 <= i < |s| ==> IsSlugChar(s[i])
  }

  predicate NoSlugChars(s: string) {
    forall i :: 0 <= i < |s| ==> !IsSlugChar(s[i])
  }

  /** `s.replace(/[^a-z0-9]+/g, '-')`: each maximal run of other characters becomes one `-`. */
  function DashOthers(s: string): (r: string)
    ensures forall i :: 0 <= i < |r| ==> IsSlugChar(r[i]) || r[i] == '-'
    ensures forall i :: 0 <= i < |r| - 1 ==> !(r[i] == '-' && r[i + 1] == '-')
    ensures r != [] && s != [] ==> (r[0] == '-' <==> !IsSlugChar(s[0]))
    decreases |s|
  {
    if s == [] then []
    else if IsSlugChar(s[0]) then
      [s[0]] + DashOthers(s[1..])
    else
      var rest := s[OtherRun(s)..];
      var r := "-" + DashOthers(rest);
      assert rest != [] ==> IsSlugChar(rest[0]);
      r
  }

  /** The length of the run of characters outside `[a-z0-9]` at the start of `s`. */
  function OtherRun(s: string): (n: nat)
    ensures n <= |s|
    ensures s != [] && !IsSlugChar(s[0]) ==> n >= 1
    ensures n < |s| ==> IsSlugChar(s[n])
    ensures forall k :: 0 <= k < n ==> !IsSlugChar(s[k])
  {
    if s != [] && !IsSlugChar(s[0]) then
      var n := 1 + OtherRun(s[1..]);
      assert forall k :: 1 <= k < n ==> s[k] == s[1..][k - 1];
      n
    else 0
  }

  /** `OtherRun` is `n` when the first `n` characters are outside `[a-z0-9]` and the next is not. */
  lemma OtherRunExact(s: string, n: nat)
    requires n <= |s|
    requires forall k :: 0 <= k < n ==> !IsSlugChar(s[k])
    requires n < |s| ==> IsSlugChar(s[n])
    ensures OtherRun(s) == n
  {
  }

  /** A string of slug characters is left as it is. */
  lemma {:induction false} DashOthersNoOther(s: string)
    requires AllSlugChars(s)
    ensures DashOthers(s) == s
    decreases |s|
  {
    if s != [] {
      DashOthersNoOther(s[1..]);
      assert s == [s[0]] + s[1..];
    }
  }

  /**
   * One `-` per run: slug characters, then a run of other characters,
   * then the rest, gives the slug characters and a single `-` before
   * the image of the rest.
   */
  lemma {:induction false} DashOthersRun(a: string, w: string, b: string)
    requires AllSlugChars(a)
    requires w != [] && NoSlugChars(w)
    requires b == [] || IsSlugChar(b[0])
    ensures DashOthers(a + w + b) == a + "-" + DashOthers(b)
    decreases |a|
  {
    var s := a + w + b;
    if a == [] {
      assert s == w + b;
      OtherRunExact(s, |w|);
      assert s[|w|..] == b;
    } else {
      assert s[0] == a[0];
      assert s[1..] == a[1..] + w + b;
      DashOthersRun(a[1..], w, b);
    }
  }

  /** The number of `-` characters at the start of `s`. */
  function LeadingDashes(s: string): (n: nat)
    ensures n <= |s|
    ensures forall k :: 0 <= k < n ==> s[k] == '-'
    ensures n < |s| ==> s[n] != '-'
  {
    if |s| > 0 && s[0] == '-' then
      var n := 1 + LeadingDashes(s[1..]);
      assert forall k :: 1 <= k < n ==> s[k] == s[1..][k - 1];
      n
    else 0
  }

  /** The number of `-` characters at the end of `s`. */
  function TrailingDashes(s: string): (n: nat)
    ensures n <= |s|
    ensures forall k :: |s| - n <= k < |s| ==> s[k] == '-'
    ensures n < |s| ==> s[|s| - n - 1] != '-'
  {
    if |s| > 0 && s[|s| - 1] == '-' then
      var n := 1 + TrailingDashes(s[..|s| - 1]);
      assert forall k :: |s| - n <= k < |s| - 1 ==> s[k] == s[..|s| - 1][k];
      n
    else 0
  }

  /**
   * `s.replace(/^-+|-+$/g, '')`: the slice `s[i..j]` left after cutting
   * every `-` at both ends, where everything outside the slice is `-` and
   * the slice neither starts nor ends with `-`.
   */
  function StripDashes(s: string): (r: string)
    ensures exists i, j :: 0 <= i <= j <= |s| && r == s[i..j]
                           && (forall k :: 0 <= k < i ==> s[k] == '-')
                           && (forall k :: j <= k < |s| ==> s[k] == '-')
    ensures r != [] ==> r[0] != '-' && r[|r| - 1] != '-'
  {
    var i := LeadingDashes(s);
    var t := s[i..];
    var n := TrailingDashes(t);
    StrippedEnds(s, i, t, n);
    s[i..|s| - n]
  }

  /** The facts behind `StripDashes`'s contract, for the cut points it computes. */
  lemma StrippedEnds(s: string, i: nat, t: string, n: nat)
    requires i <= |s| && (forall k :: 0 <= k < i ==> s[k] == '-') && (i < |s| ==> s[i] != '-')
    requires t == s[i..] && n <= |t| && (forall k :: |t| - n <= k < |t| ==> t[k] == '-')
    requires n < |t| ==> t[|t| - n - 1] != '-'
    ensures i <= |s| - n <= |s|
    ensures forall k :: |s| - n <= k < |s| ==> s[k] == '-'
    ensures s[i..|s| - n] != [] ==> s[i..|s| - n][0] != '-' && s[i..|s| - n][|s| - n - i - 1] != '-'
  {
    var j := |s| - n;
    assert forall k :: j <= k < |s| ==> s[k] == t[k - i];
    if j > i {
      assert s[i..j][0] == s[i] && s[i..j][j - i - 1] == t[|t| - n - 1];
    }
  }

  /** A string that neither starts nor ends with `-` is its own strip. */
  lemma StripDashesKeeps(s: string)
    requires s == [] || (s[0] != '-' && s[|s| - 1] != '-')
    ensures StripDashes(s) == s
  {
    assert LeadingDashes(s) == 0;
    if s != [] {
      assert TrailingDashes(s) == 0;
    }
  }

  /** The link slug of a trending title (BlogNavigation.tsx:97). */
  function TitleSlug(title: string): (slug: string)
    ensures forall i :: 0 <= i < |slug| ==> IsSlugChar(slug[i]) || slug[i] == '-'
    ensures forall i :: 0 <= i < |slug| - 1 ==> !(slug[i] == '-' && slug[i + 1] == '-')
    ensures slug != [] ==> slug[0] != '-' && slug[|slug| - 1] != '-'
  {
    var d := DashOthers(ToLower(title));
    StripDashesKeepsShape(d);
    StripDashes(d)
  }

  /** Stripping keeps a string within `[a-z0-9-]` and free of doubled dashes. */
  lemma StripDashesKeepsShape(d: string)
    requires forall i :: 0 <= i < |d| ==> IsSlugChar(d[i]) || d[i] == '-'
    requires forall i :: 0 <= i < |d| - 1 ==> !(d[i] == '-' && d[i + 1] == '-')
    ensures forall i :: 0 <= i < |StripDashes(d)| ==> IsSlugChar(StripDashes(d)[i]) || StripDashes(d)[i] == '-'
    ensures forall i :: 0 <= i < |StripDashes(d)| - 1 ==> !(StripDashes(d)[i] == '-' && StripDashes(d)[i + 1] == '-')
  {
    var r := StripDashes(d);
    var i, j :| 0 <= i <= j <= |d| && r == d[i..j];
    assert forall k :: 0 <= k < |r| ==> r[k] == d[i + k];
  }

  /** The first trending title's link (BlogNavigation.tsx:91, 97). */
  lemma TitleSlugExample()
    ensures TitleSlug("Best Omegle Alternatives in 2025") == "best-omegle-alternatives-in-2025"
  {
    var words := ["best", "omegle", "alternatives", "in", "2025"];
    LowerBestOmegle(words);
    DashOthersJoin(words, " ");
    JoinedWithDashes(words);
    StripDashesKeeps("best-omegle-alternatives-in-2025");
  }

  /**
   * Words of slug characters joined by any separator without slug
   * characters come out joined by single dashes.
   */
  lemma {:induction false} DashOthersJoin(words: seq<string>, sep: string)
    requires forall i :: 0 <= i < |words| ==> words[i] != [] && AllSlugChars(words[i])
    requires sep != [] && NoSlugChars(sep)
    ensures DashOthers(Join(words, sep)) == Join(words, "-")
    decreases |words|
  {
    if |words| == 1 {
      DashOthersNoOther(words[0]);
    } else if |words| > 1 {
      var rest := Join(words[1..], sep);
      JoinStartsWithFirst(words[1..], sep);
      DashOthersRun(words[0], sep, rest);
      DashOthersJoin(words[1..], sep);
    }
  }

  /** The join of non-empty words starts with the first word's first character. */
  lemma JoinStartsWithFirst(words: seq<string>, sep: string)
    requires words != [] && words[0] != []
    ensures Join(words, sep) != [] && Join(words, sep)[0] == words[0][0]
  {
  }

  /** Lower-casing the first trending title gives its words joined by spaces. */
  lemma LowerBestOmegle(words: seq<string>)
    requires words == ["best", "omegle", "alternatives", "in", "2025"]
    ensures ToLower("Best Omegle Alternatives in 2025") == Join(words, " ")
  {
    LowerTitle();
    JoinedWithSpaces(words);
  }

  lemma LowerTitle()
    ensures ToLower("Best Omegle Alternatives in 2025") == "best omegle alternatives in 2025"
  {
  }

  lemma JoinedWithSpaces(words: seq<string>)
    requires words == ["best", "omegle", "alternatives", "in", "2025"]
    ensures Join(words, " ") == "best omegle alternatives in 2025"
  {
    assert Join(words[4..], " ") == "2025";
    assert Join(words[3..], " ") == "in" + " " + "2025";
    assert Join(words[2..], " ") == "alternatives" + " " + "in" + " " + "2025";
    assert Join(words[1..], " ") == "omegle" + " " + "alternatives" + " " + "in" + " " + "2025";
  }

  /**
   * The same words joined by dashes. One lemma over the separator would say
   * both, but tying its result to these literals costs the verifier far more
   * than proving each join on its own.
   */
  lemma JoinedWithDashes(words: seq<string>)
    requires words == ["best", "omegle", "alternatives", "in", "2025"]
    ensures Join(words, "-") == "best-omegle-alternatives-in-2025"
  {
    assert Join(words[4..], "-") == "2025";
    assert Join(words[3..], "-") == "in" + "-" + "2025";
    assert Join(words[2..], "-") == "alternatives" + "-" + "in" + "-" + "2025";
    assert Join(words[1..], "-") == "omegle" + "-" + "alternatives" + "-" + "in" + "-" + "2025";
  }

  // -------------------------------------------------------- active links

  /** "All Posts" is highlighted when there is neither a category nor a search (BlogNavigation.tsx:38). */
  predicate AllPostsActive(params: Params) {
    !Present(params, "category") && !Present(params, "search")
  }

  /** A category link is highlighted when the category parameter is its slug (BlogNavigation.tsx:52). */
  predicate CategoryActive(params: Params, slug: string) {
    Get(params, "category") == Some(slug)
  }

  /** A tag link is highlighted when the tag parameter is the tag's slug (BlogNavigation.tsx:76). */
  predicate TagActive(params: Params, tag: string) {
    Get(params, "tag") == Some(TagSlug(tag))
  }

  /** With distinct slugs, at most one category link is highlighted. */
  lemma AtMostOneCategoryActive(params: Params, categories: seq<Category>, i: nat, j: nat)
    requires i < |categories| && j < |categories|
    requires forall a, b :: 0 <= a < b < |categories| ==> categories[a].slug != categories[b].slug
    requires CategoryActive(params, categories[i].slug) && CategoryActive(params, categories[j].slug)
    ensures i == j
  {
  }

  /** While "All Posts" is highlighted, no category with a non-empty slug is. */
  lemma AllPostsExcludesCategory(params: Params, slug: string)
    requires slug != ""
    ensures !(AllPostsActive(params) && CategoryActive(params, slug))
  {
  }

  // --------------------------------------------------------------- view

  const PopularTags := ["omegle", "chatroulette", "random chat", "video chat", "stranger chat",
                        "online dating", "make friends", "anonymous chat", "free chat", "meet new people"]

  const TrendingTitles := ["Best Omegle Alternatives in 2025", "How to Stay Safe on Random Chat Apps",
                           "Top 10 Video Chat Apps for Meeting New People"]

  /** A link as drawn: where it goes and whether it is highlighted. */
  datatype Link = Link(target: string, active: bool)

  datatype View =
    | Placeholders(count: nat)
    | Menu(allPosts: Link, categories: seq<Link>, tags: seq<Link>, trending: seq<Link>)

  /** What the sidebar draws for the current parameters (BlogNavigation.tsx:10-108). */
  function Navigation(params: Params, categories: seq<Category>, loading: bool): (v: View)
    ensures loading <==> v.Placeholders?
    ensures loading ==> v.count == 5
    ensures !loading ==> v.allPosts == Link("/blog", AllPostsActive(params))
    ensures !loading ==> |v.categories| == |categories| && forall i :: 0 <= i < |categories| ==>
              v.categories[i] == Link("/blog?category=" + categories[i].slug, CategoryActive(params, categories[i].slug))
    ensures !loading ==> |v.tags| == |PopularTags| && forall i :: 0 <= i < |PopularTags| ==>
              v.tags[i] == Link("/blog?tag=" + TagSlug(PopularTags[i]), TagActive(params, PopularTags[i]))
    ensures !loading ==> |v.trending| == |TrendingTitles| && forall i :: 0 <= i < |TrendingTitles| ==>
              v.trending[i].target == "/blog/" + TitleSlug(TrendingTitles[i]) && !v.trending[i].active
  {
    if loading then Placeholders(5)
    else
      Menu(Link("/blog", AllPostsActive(params)),
           seq(|categories|, i requires 0 <= i < |categories| =>
               Link("/blog?category=" + categories[i].slug, CategoryActive(params, categories[i].slug))),
           seq(|PopularTags|, i requires 0 <= i < |PopularTags| =>
               Link("/blog?tag=" + TagSlug(PopularTags[i]), TagActive(params, PopularTags[i]))),
           seq(|TrendingTitles|, i requires 0 <= i < |TrendingTitles| =>
               Link("/blog/" + TitleSlug(TrendingTitles[i]), false)))
  }
}
