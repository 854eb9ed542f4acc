/**
 * The blog section of the home page (client/src/components/Blog.tsx): the
 * category buttons, the filtered grid of post cards, the three-tag excerpt,
 * the read-more link and the empty-state message.
 */
module BlogSection {
  import opened Wrappers
  import opened Seqs
  import opened BlogData
  import Palette
  import BlogDetail

  /** The filter buttons, in the order they are shown. */
  const Categories: seq<string> := ["All", "Web Development", "Data Analysis", "Data Engineering", "Database"]

  /** `filteredPosts` for the active button: the "All or equal category" rule on the shipped posts. */
  function FilteredPosts(active: string): (r: seq<BlogPost>)
    ensures active == AllCategories ==> r == BlogPosts
    ensures active != AllCategories ==> Selects(r, BlogPosts, InCategory(active))
  {
    PostsByCategory(BlogPosts, active)
  }

  /** `post.tags.slice(0, 3)`: the first three tags, or all of them when there are fewer. */
  function ShownTags(tags: seq<string>): (r: seq<string>)
    ensures |r| <= 3 && r <= tags
    ensures |tags| <= 3 ==> r == tags
    ensures |tags| > 3 ==> |r| == 3
  {
    Take(tags, 3)
  }

  /** The path prefix of an article's page. */
  const ArticlePath := "/blog/"

  /** The Read More link of a card. */
  function ReadMoreHref(id: string): (href: string)
    ensures BlogDetail.StartsWith(href, ArticlePath)
    ensures |href| == |ArticlePath| + |id|
    ensures href[|ArticlePath|..] == id
  {
    ArticlePath + id
  }

  /** The id an article path names: what follows `/blog/`. */
  function HrefId(href: string): string
    requires BlogDetail.StartsWith(href, ArticlePath)
  {
    href[|ArticlePath|..]
  }

  /** The link target names the post it was made from. */
  lemma HrefRoundTrip(id: string)
    ensures HrefId(ReadMoreHref(id)) == id
  {
  }

  /** Following a shipped post's Read More link opens that post's article. */
  lemma ReadMoreOpensArticle(k: nat)
    requires k < |BlogPosts|
    ensures BlogDetail.Page(Some(HrefId(ReadMoreHref(BlogPosts[k].id)))).Article?
    ensures BlogDetail.Page(Some(HrefId(ReadMoreHref(BlogPosts[k].id)))).post == BlogPosts[k]
  {
    HrefRoundTrip(BlogPosts[k].id);
    ShippedLookups();
  }

  /** The "No articles found" message is rendered. */
  predicate ShowsEmptyState(active: string)
  {
    |FilteredPosts(active)| == 0
  }

  /** What one card of the grid shows. */
  datatype BlogCard = BlogCard(post: BlogPost, delayMs: nat, gradient: string, tags: seq<string>, href: string)

  /** The cards of the grid, in order. */
  function Cards(active: string): (cards: seq<BlogCard>)
    ensures |cards| == |FilteredPosts(active)|
    ensures forall k :: 0 <= k < |cards| ==>
      && cards[k].post == FilteredPosts(active)[k]
      && cards[k].delayMs == 100 * k
      && |cards[k].tags| <= 3 && cards[k].tags <= cards[k].post.tags
      && cards[k].tags == ShownTags(cards[k].post.tags)
      && cards[k].gradient == Palette.Gradient(cards[k].post.category)
      && cards[k].href == ArticlePath + cards[k].post.id
  {
    var shown := FilteredPosts(active);
    seq(|shown|, k requires 0 <= k < |shown| =>
      BlogCard(shown[k], k * 100, Palette.Gradient(shown[k].category), ShownTags(shown[k].tags), ReadMoreHref(shown[k].id)))
  }

  /** The empty-state message is rendered exactly when the grid has no cards. */
  lemma EmptyStateIffNoCards(active: string)
    ensures ShowsEmptyState(active) <==> Cards(active) == []
  {
  }

  /** With the shipped posts, each category button other than "All" shows exactly one post. */
  lemma OnePostPerCategory(active: string)
    requires active in Categories && active != AllCategories
    ensures |FilteredPosts(active)| == 1
    ensures !ShowsEmptyState(active)
  {
    var c :| 0 <= c < |Categories| && Categories[c] == active;
    var k := if c == 1 then 1 else if c == 2 then 3 else if c == 3 then 0 else 2;
    assert BlogPosts[k].category == Categories[c];
    OnlyPostOfItsCategory(k);
    SoleOfCategory(BlogPosts, k);
  }

  /** No other shipped post shares a shipped post's category. */
  lemma OnlyPostOfItsCategory(k: nat)
    requires k < |BlogPosts|
    ensures forall j :: 0 <= j < |BlogPosts| && j != k ==> BlogPosts[j].category != BlogPosts[k].category
  {
    ShippedPostsDistinct();
    forall j | 0 <= j < |BlogPosts| && j != k
      ensures BlogPosts[j].category != BlogPosts[k].category
    {
      if j < k {
        assert BlogPosts[j].category != BlogPosts[k].category;
      } else {
        assert BlogPosts[k].category != BlogPosts[j].category;
      }
    }
  }
}
