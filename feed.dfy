// The home page feed (src/components/HomePage.tsx): the category list, the
// search-and-category filter, five-post pages with their page count and the
// clamped previous/next steps, the reading-time estimate, the empty-feed
// notice and the sidebar's per-category counts.
module Feed {
  import opened Types
  import opened Seqs
  import opened Text

  /** Posts on one page of the feed. */
  const PostsPerPage := 5
  /** The category selector value that lets every category through. */
  const AllCategories := "all"
  /** Reading speed behind the minutes shown on each card. */
  const WordsPerMinute := 200

  /** The search box: the term occurs in the title or the content, ignoring
      ASCII case. The empty term matches every post, and a matching term is no
      longer than the title or the content it occurs in. */
  predicate MatchesSearch(p: Post, term: string): (r: bool)
    ensures term == "" ==> r
    ensures r ==> |term| <= |p.title| || |term| <= |p.content|
  {
    assert term == "" ==> ToLower(term) == "" && OccursAt(ToLower(p.title), ToLower(term), 0);
    Contains(ToLower(p.title), ToLower(term)) || Contains(ToLower(p.content), ToLower(term))
  }

  /** The category buttons: "all" lets every post through; any other choice
      lets through exactly the posts of that category. */
  predicate MatchesCategory(p: Post, category: string): (r: bool)
    ensures category == AllCategories ==> r
    ensures category != AllCategories ==> (r <==> p.category == category)
  {
    category == AllCategories || p.category == category
  }

  /** The posts the feed shows before paging, in their original order. */
  function FilterPosts(posts: seq<Post>, term: string, category: string): (r: seq<Post>)
    ensures |r| <= |posts|
  {
    Filter(posts, p => MatchesSearch(p, term) && MatchesCategory(p, category))
  }

  /** The filter keeps the feed's order, keeps a post exactly when it matches
      both the search and the category, and keeps every copy of it. */
  lemma FilterPostsSelects(posts: seq<Post>, term: string, category: string)
    ensures IsSubsequence(FilterPosts(posts, term, category), posts)
    ensures forall p :: p in FilterPosts(posts, term, category) <==>
      p in posts && MatchesSearch(p, term) && MatchesCategory(p, category)
    ensures forall p | p in posts && MatchesSearch(p, term) && MatchesCategory(p, category) ::
      multiset(FilterPosts(posts, term, category))[p] == multiset(posts)[p]
  {
    FilterSelects(posts, p => MatchesSearch(p, term) && MatchesCategory(p, category));
    FilterMembers(posts, p => MatchesSearch(p, term) && MatchesCategory(p, category));
  }

  /** Searching first and then picking a category, or the other way round,
      gives the feed's combined filter. */
  lemma FilterOrderIrrelevant(posts: seq<Post>, term: string, category: string)
    ensures Filter(Filter(posts, p => MatchesSearch(p, term)), p => MatchesCategory(p, category))
      == FilterPosts(posts, term, category)
    ensures Filter(Filter(posts, p => MatchesCategory(p, category)), p => MatchesSearch(p, term))
      == FilterPosts(posts, term, category)
  {
    var both := p => MatchesSearch(p, term) && MatchesCategory(p, category);
    FilterFilter(posts, p => MatchesSearch(p, term), p => MatchesCategory(p, category), both);
    FilterFilter(posts, p => MatchesCategory(p, category), p => MatchesSearch(p, term), both);
  }

  /** With no search term and the "all" category the feed is every post. */
  lemma NoCriteriaKeepsAll(posts: seq<Post>)
    ensures FilterPosts(posts, "", AllCategories) == posts
  {
    FilterKeepsAll(posts, p => MatchesSearch(p, "") && MatchesCategory(p, AllCategories));
  }

  /** The category of each post, in feed order. */
  function PostCategories(posts: seq<Post>): (r: seq<string>)
    ensures |r| == |posts| && forall i :: 0 <= i < |posts| ==> r[i] == posts[i].category
  {
    Map(posts, (p: Post) => p.category)
  }

  /** The category buttons: "all", then each post category once, in order of first appearance. */
  function Categories(posts: seq<Post>): (r: seq<string>)
    ensures |r| >= 1 && r[0] == AllCategories
  {
    [AllCategories] + Distinct(PostCategories(posts))
  }

  /** Every post's category has a button, every button after "all" belongs to
      some post, no button after "all" repeats, and the buttons follow the
      order in which the categories first appear in the feed. */
  lemma CategoriesListed(posts: seq<Post>)
    ensures forall i :: 0 <= i < |posts| ==> posts[i].category in Categories(posts)[1..]
    ensures forall c | c in Categories(posts)[1..] :: exists i :: 0 <= i < |posts| && posts[i].category == c
    ensures forall i, j :: 1 <= i < j < |Categories(posts)| ==> Categories(posts)[i] != Categories(posts)[j]
    ensures forall i, j :: 1 <= i < j < |Categories(posts)| ==>
      FirstIndex(PostCategories(posts), Categories(posts)[i]) < FirstIndex(PostCategories(posts), Categories(posts)[j])
  {
    var cats := PostCategories(posts);
    var r := Categories(posts);
    assert r[1..] == Distinct(cats);
    forall i | 0 <= i < |posts| ensures posts[i].category in r[1..] {
      assert cats[i] in cats;
    }
    forall c | c in r[1..] ensures exists i :: 0 <= i < |posts| && posts[i].category == c {
      ButtonHasPost(posts, c);
    }
  }

  /** A category button after "all" names the category of some post. */
  lemma ButtonHasPost(posts: seq<Post>, c: string)
    requires c in Categories(posts)[1..]
    ensures exists i :: 0 <= i < |posts| && posts[i].category == c
  {
    var cats := PostCategories(posts);
    assert Categories(posts)[1..] == Distinct(cats);
    var i := FirstIndex(cats, c);
  }

  /** The sidebar list: the category buttons without "all". */
  function SidebarCategories(posts: seq<Post>): (r: seq<string>)
    ensures AllCategories !in r
  {
    FilterMembers(Categories(posts), c => c != AllCategories);
    Filter(Categories(posts), c => c != AllCategories)
  }

  /** The number shown beside a sidebar category. */
  function CategoryCount(posts: seq<Post>, category: string): (n: nat)
    ensures n <= |posts|
  {
    |Filter(posts, (p: Post) => p.category == category)|
  }

  /** A category some post carries is counted at least once. */
  lemma CarriedCategoryCounted(posts: seq<Post>, i: nat)
    requires i < |posts|
    ensures CategoryCount(posts, posts[i].category) >= 1
  {
    var c := posts[i].category;
    FilterMembers(posts, (p: Post) => p.category == c);
    assert posts[i] in Filter(posts, (p: Post) => p.category == c);
  }

  /** Every category the sidebar lists has at least one post. */
  lemma SidebarCountsPositive(posts: seq<Post>)
    ensures forall c | c in SidebarCategories(posts) :: CategoryCount(posts, c) >= 1
  {
    var cats := Categories(posts);
    FilterMembers(cats, c => c != AllCategories);
    forall c | c in SidebarCategories(posts) ensures CategoryCount(posts, c) >= 1 {
      var k :| 0 <= k < |cats| && cats[k] == c;
      assert cats[1..][k - 1] == c;
      ButtonHasPost(posts, c);
      var i :| 0 <= i < |posts| && posts[i].category == c;
      CarriedCategoryCounted(posts, i);
    }
  }

  /** `Math.ceil(n / 5)`: the number of pages n posts fill. */
  function TotalPages(n: nat): (r: nat)
    ensures r * PostsPerPage >= n
    ensures r == 0 || (r - 1) * PostsPerPage < n
  {
    (n + PostsPerPage - 1) / PostsPerPage
  }

  /** Page `page` (from 1) of the filtered feed: `slice(start, start + 5)`,
      which is empty once the start is past the end. */
  function Page(filtered: seq<Post>, page: int): (r: seq<Post>)
    requires page >= 1
    ensures |r| <= PostsPerPage
    ensures (page - 1) * PostsPerPage >= |filtered| ==> r == []
    ensures (page - 1) * PostsPerPage < |filtered| ==>
      |r| == if page * PostsPerPage <= |filtered| then PostsPerPage else |filtered| - (page - 1) * PostsPerPage
    ensures forall j :: 0 <= j < |r| ==> r[j] == filtered[(page - 1) * PostsPerPage + j]
  {
    var start := (page - 1) * PostsPerPage;
    if start >= |filtered| then []
    else if start + PostsPerPage <= |filtered| then filtered[start..start + PostsPerPage]
    else filtered[start..]
  }

  /** Pages 1 to k of the feed, one after the other. */
  function PagesUpTo(filtered: seq<Post>, k: nat): (r: seq<Post>)
    ensures |r| <= k * PostsPerPage
  {
    if k == 0 then [] else PagesUpTo(filtered, k - 1) + Page(filtered, k)
  }

  /** Pages 1 to k together are the first min(5k, n) posts of the feed, so
      pages neither overlap nor skip a post. */
  lemma {:induction false} PagesUpToIsPrefix(filtered: seq<Post>, k: nat)
    ensures PagesUpTo(filtered, k) == filtered[..if k * PostsPerPage <= |filtered| then k * PostsPerPage else |filtered|]
  {
    if k > 0 {
      PagesUpToIsPrefix(filtered, k - 1);
      var prev := if (k - 1) * PostsPerPage <= |filtered| then (k - 1) * PostsPerPage else |filtered|;
      var next := if k * PostsPerPage <= |filtered| then k * PostsPerPage else |filtered|;
      var page := Page(filtered, k);
      if (k - 1) * PostsPerPage < |filtered| {
        assert page == filtered[prev..next];
        assert filtered[..prev] + filtered[prev..next] == filtered[..next];
      } else {
        assert page == [];
        assert prev == next;
      }
    }
  }

  /** Reading the pages 1 to TotalPages in order gives back the whole filtered feed. */
  lemma PagesCoverFeed(filtered: seq<Post>)
    ensures PagesUpTo(filtered, TotalPages(|filtered|)) == filtered
  {
    PagesUpToIsPrefix(filtered, TotalPages(|filtered|));
    assert filtered[..|filtered|] == filtered;
  }

  /** Twelve posts fill three pages, the last holding two, and a fourth page is empty. */
  lemma TwelvePostsExample(filtered: seq<Post>)
    requires |filtered| == 12
    ensures TotalPages(|filtered|) == 3
    ensures |Page(filtered, 1)| == 5 && |Page(filtered, 2)| == 5 && |Page(filtered, 3)| == 2
    ensures Page(filtered, 3) == filtered[10..] && Page(filtered, 4) == []
  {
  }

  /** The "previous" button: one page back, never below page 1. */
  function PreviousPage(page: int): (r: int)
    ensures r >= 1
    ensures page > 1 ==> r == page - 1
    ensures page <= 1 ==> r == 1
  {
    if page - 1 > 1 then page - 1 else 1
  }

  /** The "next" button: one page on, never past the last page. */
  function NextPage(page: int, totalPages: nat): (r: int)
    ensures r <= totalPages
    ensures page < totalPages ==> r == page + 1
    ensures page >= totalPages ==> r == totalPages
  {
    if page + 1 < totalPages then page + 1 else totalPages
  }

  /** From a page in 1..totalPages both buttons stay in 1..totalPages, and
      "previous" undoes "next" whenever "next" moved. */
  lemma StepsStayInRange(page: int, totalPages: nat)
    requires 1 <= page <= totalPages
    ensures 1 <= PreviousPage(page) <= totalPages
    ensures 1 <= NextPage(page, totalPages) <= totalPages
    ensures page < totalPages ==> PreviousPage(NextPage(page, totalPages)) == page
    ensures page > 1 ==> NextPage(PreviousPage(page), totalPages) == page
  {
  }

  /** `content.split(' ').length`: spaces plus one, so never zero. */
  function WordCount(content: string): (n: nat)
    ensures n == Count(content, ' ') + 1
  {
    |Split(content, ' ')|
  }

  /** `Math.ceil(words / 200)`: the minutes shown on a card. */
  function ReadingTime(content: string): (minutes: nat)
    ensures minutes >= 1
    ensures minutes * WordsPerMinute >= Count(content, ' ') + 1
    ensures (minutes - 1) * WordsPerMinute < Count(content, ' ') + 1
  {
    (WordCount(content) + WordsPerMinute - 1) / WordsPerMinute
  }

  /** An empty string reads in one minute, as does any text of up to 199 spaces. */
  lemma ReadingTimeOfShortText(content: string)
    requires Count(content, ' ') < WordsPerMinute
    ensures ReadingTime(content) == 1
  {
  }

  /** The two texts the feed shows in place of an empty page. */
  datatype Notice = NoMatches | NoPostsYet

  /** The notice shown for the current page: none when the page has posts,
      otherwise "no matches" exactly when a search term or a category is active. */
  function EmptyNotice(shown: seq<Post>, term: string, category: string): (r: Option<Notice>)
    ensures r.None? <==> shown != []
    ensures r == Some(NoMatches) <==> shown == [] && (term != "" || category != AllCategories)
    ensures r == Some(NoPostsYet) <==> shown == [] && term == "" && category == AllCategories
  {
    if shown != [] then None
    else if term != "" || category != AllCategories then Some(NoMatches)
    else Some(NoPostsYet)
  }

  /** On the first page "no posts yet" is told only when there are no posts at all. */
  lemma NoPostsYetOnFirstPage(posts: seq<Post>, term: string, category: string)
    requires EmptyNotice(Page(FilterPosts(posts, term, category), 1), term, category) == Some(NoPostsYet)
    ensures posts == []
  {
    NoCriteriaKeepsAll(posts);
  }

  /** The page number outlives a new search. With six or more posts the feed
      has a second page; after typing a term that five posts match while on
      it, that page is empty and the notice says nothing matches, although
      the five matches fill page 1 and, with one page left, the page buttons
      are gone. */
  lemma NoMatchesPastLastPage(posts: seq<Post>, term: string)
    requires |posts| >= 6 && term != "" && |FilterPosts(posts, term, AllCategories)| == 5
    ensures TotalPages(|FilterPosts(posts, "", AllCategories)|) >= 2
    ensures TotalPages(|FilterPosts(posts, term, AllCategories)|) == 1
    ensures |Page(FilterPosts(posts, term, AllCategories), 1)| == PostsPerPage
    ensures EmptyNotice(Page(FilterPosts(posts, term, AllCategories), 2), term, AllCategories) == Some(NoMatches)
  {
    NoCriteriaKeepsAll(posts);
  }

  /** The feed's own state: the search box, the selected category and the page number. */
  class FeedState {
    var searchTerm: string
    var selectedCategory: string
    var currentPage: int

    /** The page number never drops below 1. */
    predicate Valid()
      reads this
    {
      currentPage >= 1
    }

    /** The filtered feed for the current search and category. */
    function Filtered(posts: seq<Post>): seq<Post>
      reads this
    {
      FilterPosts(posts, searchTerm, selectedCategory)
    }

    /** The posts on the current page: at most five, each of them a post
        that matches the current search and category. */
    function Shown(posts: seq<Post>): (r: seq<Post>)
      reads this
      requires Valid()
      ensures |r| <= PostsPerPage
      ensures forall p | p in r :: p in posts && MatchesSearch(p, searchTerm) && MatchesCategory(p, selectedCategory)
    {
      var filtered := Filtered(posts);
      var r := Page(filtered, currentPage);
      FilterPostsSelects(posts, searchTerm, selectedCategory);
      assert forall p | p in r :: p in filtered;
      r
    }

    /** Fresh state: empty search, category "all", page 1. */
    constructor ()
      ensures Valid()
      ensures searchTerm == "" && selectedCategory == AllCategories && currentPage == 1
    {
      searchTerm, selectedCategory, currentPage := "", AllCategories, 1;
    }

    /** Typing in the search box; the page number is left as it was. */
    method SetSearchTerm(term: string)
      requires Valid()
      modifies this
      ensures Valid()
      ensures searchTerm == term
      ensures selectedCategory == old(selectedCategory) && currentPage == old(currentPage)
    {
      searchTerm := term;
    }

    /** A category button, in the filter bar or the sidebar; the page number is left as it was. */
    method SelectCategory(category: string)
      requires Valid()
      modifies this
      ensures Valid()
      ensures selectedCategory == category
      ensures searchTerm == old(searchTerm) && currentPage == old(currentPage)
    {
      selectedCategory := category;
    }

    /** A numbered page button. The buttons run from 1 to the page count, so
        the page a button opens is never empty. */
    method GoToPage(posts: seq<Post>, page: int)
      requires Valid() && 1 <= page <= TotalPages(|Filtered(posts)|)
      modifies this
      ensures Valid()
      ensures currentPage == page && Shown(posts) != []
      ensures searchTerm == old(searchTerm) && selectedCategory == old(selectedCategory)
    {
      currentPage := page;
    }

    /** The "previous" button. */
    method Previous()
      requires Valid()
      modifies this
      ensures Valid()
      ensures currentPage == PreviousPage(old(currentPage))
      ensures searchTerm == old(searchTerm) && selectedCategory == old(selectedCategory)
    {
      currentPage := PreviousPage(currentPage);
    }

    /** The "next" button, which is only on screen when there is more than
        one page; the page it lands on is never empty. */
    method Next(posts: seq<Post>)
      requires Valid() && TotalPages(|Filtered(posts)|) > 1
      modifies this
      ensures Valid()
      ensures currentPage == NextPage(old(currentPage), TotalPages(|Filtered(posts)|)) && Shown(posts) != []
      ensures searchTerm == old(searchTerm) && selectedCategory == old(selectedCategory)
    {
      currentPage := NextPage(currentPage, TotalPages(|Filtered(posts)|));
    }
  }
}
