/**
 * The blog catalogue (client/src/lib/blogData.ts): a fixed list of posts, a
 * lookup by id with `find` semantics and a category filter in which "All"
 * means no filter.
 */
module BlogData {
  import opened Wrappers
  import opened Seqs

  /** The fields of a blog post that the site's logic reads or shows. */
  datatype BlogPost = BlogPost(id: string, title: string, category: string, readTime: string, tags: seq<string>)

  /** The shipped posts, in list order. */
  const BlogPosts: seq<BlogPost> := [
    BlogPost("1", "Getting Started with Data Engineering: A Beginner's Guide", "Data Engineering",
      "8 min read", ["Data Engineering", "ETL", "Beginner", "Career"]),
    BlogPost("2", "Building Scalable APIs with Node.js and Express", "Web Development",
      "10 min read", ["Node.js", "Express", "API", "Backend"]),
    BlogPost("3", "SQL Optimization Techniques for Better Database Performance", "Database",
      "7 min read", ["SQL", "Database", "Performance", "PostgreSQL"]),
    BlogPost("4", "Introduction to Data Analysis with Python and Pandas", "Data Analysis",
      "9 min read", ["Python", "Pandas", "Data Analysis", "Tutorial"])
  ]

  /** The filter value that stands for "no filter". */
  const AllCategories := "All"

  /** The category test of the filter: `p.category === category`. */
  function InCategory(category: string): BlogPost -> bool
  {
    (p: BlogPost) => p.category == category
  }

  /** The lookup over any list of posts: the first post, in list order, whose id is `id`. */
  function PostById(posts: seq<BlogPost>, id: string): (r: Option<BlogPost>)
    ensures r.Some? ==> r.value in posts && r.value.id == id
    ensures r.None? <==> forall p :: p in posts ==> p.id != id
    ensures r.Some? ==> exists k :: 0 <= k < |posts| && posts[k] == r.value &&
                                    forall j :: 0 <= j < k ==> posts[j].id != id
  {
    Find(posts, (p: BlogPost) => p.id == id)
  }

  /**
   * The category filter over any list of posts: "All" gives the list itself;
   * any other value gives exactly the posts of that category, in order.
   */
  function PostsByCategory(posts: seq<BlogPost>, category: string): (r: seq<BlogPost>)
    ensures category == AllCategories ==> r == posts
    ensures category != AllCategories ==> Selects(r, posts, InCategory(category))
    ensures |r| <= |posts|
  {
    if category == AllCategories then posts
    else Filter(posts, InCategory(category))
  }

  /** A post whose category no other post has is all that its category's filter keeps. */
  lemma SoleOfCategory(posts: seq<BlogPost>, k: nat)
    requires k < |posts| && posts[k].category != AllCategories
    requires forall j :: 0 <= j < |posts| && j != k ==> posts[j].category != posts[k].category
    ensures PostsByCategory(posts, posts[k].category) == [posts[k]]
  {
    FilterSingle(posts, InCategory(posts[k].category), k);
  }

  /** No two shipped posts share an id, and no two share a category. */
  lemma ShippedPostsDistinct()
    ensures forall i, j :: 0 <= i < j < |BlogPosts| ==> BlogPosts[i].id != BlogPosts[j].id
    ensures forall i, j :: 0 <= i < j < |BlogPosts| ==> BlogPosts[i].category != BlogPosts[j].category
  {
  }

  /** `getBlogPostById` on the shipped posts. */
  function GetBlogPostById(id: string): (r: Option<BlogPost>)
    ensures r.Some? <==> id in {"1", "2", "3", "4"}
    ensures r.Some? ==> r.value in BlogPosts && r.value.id == id
  {
    PostById(BlogPosts, id)
  }

  /** `getBlogPostsByCategory` on the shipped posts. */
  function GetBlogPostsByCategory(category: string): (r: seq<BlogPost>)
    ensures category == AllCategories ==> r == BlogPosts
    ensures category != AllCategories ==> Selects(r, BlogPosts, InCategory(category))
  {
    PostsByCategory(BlogPosts, category)
  }

  /** In a list with distinct ids, the lookup of an entry's id finds that entry. */
  lemma LookupOfDistinct(posts: seq<BlogPost>, k: nat)
    requires k < |posts|
    requires forall i, j :: 0 <= i < j < |posts| ==> posts[i].id != posts[j].id
    ensures PostById(posts, posts[k].id) == Some(posts[k])
  {
    var r := PostById(posts, posts[k].id);
    var m :| 0 <= m < |posts| && posts[m] == r.value &&
             forall j :: 0 <= j < m ==> posts[j].id != posts[k].id;
  }

  /** Each shipped post's id finds that post; the empty id finds nothing. */
  lemma ShippedLookups()
    ensures forall k :: 0 <= k < |BlogPosts| ==> GetBlogPostById(BlogPosts[k].id) == Some(BlogPosts[k])
    ensures GetBlogPostById("") == None
  {
    ShippedPostsDistinct();
    forall k | 0 <= k < |BlogPosts|
      ensures GetBlogPostById(BlogPosts[k].id) == Some(BlogPosts[k])
    {
      LookupOfDistinct(BlogPosts, k);
    }
  }
}
