/**
 * The article page (client/src/pages/blog-detail.tsx): the choice between the
 * not-found view and the article, the related-posts rule, and the line-by-line
 * renderer of an article's Markdown-style content.
 */
module BlogDetail {
  import opened Wrappers
  import opened Seqs
  import opened BlogData
  import Palette

  // ---------------------------------------------------------------------------
  // Lines

  /** `content.split('\n')`: the pieces of the content between newlines. */
  function Lines(s: string): (r: seq<string>)
    ensures |r| >= 1
  {
    if s == [] then [""]
    else
      var rest := Lines(s[1..]);
      if s[0] == '\n' then [""] + rest
      else [[s[0]] + rest[0]] + rest[1..]
  }

  /** There is one piece more than there are newlines, and no piece holds a newline. */
  lemma {:induction false} LinesCount(s: string)
    ensures |Lines(s)| == multiset(s)['\n'] + 1
    ensures forall k :: 0 <= k < |Lines(s)| ==> '\n' !in Lines(s)[k]
  {
    if s != [] {
      var c, t := s[0], s[1..];
      assert s == [c] + t;
      assert multiset(s) == multiset([c]) + multiset(t);
      LinesCount(t);
      if c == '\n' {
        LinesNewline(t);
        NewlinePieces(Lines(t));
      } else {
        LinesOther(c, t);
        OtherPieces(c, Lines(t));
      }
    }
  }

  /** An empty piece in front of newline-free pieces leaves them all newline-free. */
  lemma NewlinePieces(rest: seq<string>)
    requires forall k :: 0 <= k < |rest| ==> '\n' !in rest[k]
    ensures forall k :: 0 <= k < |[""] + rest| ==> '\n' !in ([""] + rest)[k]
  {
    forall k | 0 <= k < |[""] + rest|
      ensures '\n' !in ([""] + rest)[k]
    {
      if k > 0 {
        assert ([""] + rest)[k] == rest[k - 1];
      }
    }
  }

  /** Extending the first of newline-free pieces by another character leaves them all newline-free. */
  lemma OtherPieces(c: char, rest: seq<string>)
    requires c != '\n' && |rest| >= 1
    requires forall k :: 0 <= k < |rest| ==> '\n' !in rest[k]
    ensures forall k :: 0 <= k < |[[c] + rest[0]] + rest[1..]| ==> '\n' !in ([[c] + rest[0]] + rest[1..])[k]
  {
    var r := [[c] + rest[0]] + rest[1..];
    forall k | 0 <= k < |r|
      ensures '\n' !in r[k]
    {
      if k > 0 {
        assert r[k] == rest[k];
      } else {
        assert r[0] == [c] + rest[0];
      }
    }
  }

  /** `lines.join('\n')`, the inverse of `Lines`. */
  function Join(lines: seq<string>): string
    requires |lines| >= 1
  {
    if |lines| == 1 then lines[0] else lines[0] + "\n" + Join(lines[1..])
  }

  /** Joining the pieces gives back the content. */
  lemma {:induction false} JoinLines(s: string)
    ensures Join(Lines(s)) == s
  {
    if s != [] {
      var c, t := s[0], s[1..];
      assert s == [c] + t;
      JoinLines(t);
      if c == '\n' {
        LinesNewline(t);
        JoinNewline(Lines(t));
      } else {
        LinesOther(c, t);
        JoinOther(c, Lines(t));
      }
    }
  }

  /** An empty first piece joins as a leading newline. */
  lemma JoinNewline(rest: seq<string>)
    requires |rest| >= 1
    ensures Join([""] + rest) == "\n" + Join(rest)
  {
    assert ([""] + rest)[1..] == rest;
  }

  /** A character put in front of the first piece is put in front of the join. */
  lemma JoinOther(c: char, rest: seq<string>)
    requires |rest| >= 1
    ensures Join([[c] + rest[0]] + rest[1..]) == [c] + Join(rest)
  {
    var first := [[c] + rest[0]] + rest[1..];
    assert first[0] == [c] + rest[0] && first[1..] == rest[1..];
    if |rest| > 1 {
      var j := Join(rest[1..]);
      assert Join(first) == ([c] + rest[0]) + "\n" + j;
      assert Join(rest) == rest[0] + "\n" + j;
      ConsJoined(c, rest[0], j);
    }
  }

  lemma ConsJoined(c: char, piece: string, j: string)
    ensures ([c] + piece) + "\n" + j == [c] + (piece + "\n" + j)
  {
  }

  /** Splitting a line that holds no newline gives that line alone. */
  lemma {:induction false} LinesOfLine(line: string)
    requires '\n' !in line
    ensures Lines(line) == [line]
  {
    if line != [] {
      LinesOfLine(line[1..]);
      assert [line[0]] + line[1..] == line;
    }
  }

  /** Splitting the join of newline-free pieces gives back the pieces. */
  lemma {:induction false} LinesJoin(lines: seq<string>)
    requires |lines| >= 1
    requires forall k :: 0 <= k < |lines| ==> '\n' !in lines[k]
    ensures Lines(Join(lines)) == lines
  {
    if |lines| == 1 {
      LinesOfLine(lines[0]);
    } else {
      var rest := Join(lines[1..]);
      assert Join(lines) == lines[0] + "\n" + rest;
      LinesJoin(lines[1..]);
      LinesAround(lines[0], rest);
      LinesOfLine(lines[0]);
      assert [lines[0]] + lines[1..] == lines;
    }
  }

  /** A newline splits the content into the lines before it and the lines after it. */
  lemma {:induction false} LinesAround(a: string, b: string)
    ensures Lines(a + "\n" + b) == Lines(a) + Lines(b)
  {
    if a == [] {
      assert a + "\n" + b == ['\n'] + b;
      LinesNewline(b);
    } else {
      var c, t := a[0], a[1..];
      assert a == [c] + t;
      assert a + "\n" + b == [c] + (t + "\n" + b);
      LinesAround(t, b);
      LinesAroundStep(c, t, b);
    }
  }

  lemma LinesAroundStep(c: char, t: string, b: string)
    requires Lines(t + "\n" + b) == Lines(t) + Lines(b)
    ensures Lines([c] + (t + "\n" + b)) == Lines([c] + t) + Lines(b)
  {
    if c == '\n' {
      LinesNewlineAround(t, b);
    } else {
      LinesOtherAround(c, t, b);
    }
  }

  lemma LinesNewlineAround(t: string, b: string)
    requires Lines(t + "\n" + b) == Lines(t) + Lines(b)
    ensures Lines(['\n'] + (t + "\n" + b)) == Lines(['\n'] + t) + Lines(b)
  {
    LinesNewline(t + "\n" + b);
    LinesNewline(t);
    ConsAssoc("", Lines(t), Lines(b));
  }

  lemma LinesOtherAround(c: char, t: string, b: string)
    requires c != '\n'
    requires Lines(t + "\n" + b) == Lines(t) + Lines(b)
    ensures Lines([c] + (t + "\n" + b)) == Lines([c] + t) + Lines(b)
  {
    LinesOther(c, t + "\n" + b);
    LinesOther(c, t);
    PrependToFirst([c], Lines(t), Lines(b));
  }

  /** Extending the first piece of `front + back` extends the first piece of `front`. */
  lemma PrependToFirst(prefix: string, front: seq<string>, back: seq<string>)
    requires |front| >= 1
    ensures [prefix + (front + back)[0]] + (front + back)[1..] == ([prefix + front[0]] + front[1..]) + back
  {
    assert (front + back)[1..] == front[1..] + back;
  }

  lemma ConsAssoc<T>(x: T, p: seq<T>, q: seq<T>)
    ensures [x] + (p + q) == ([x] + p) + q
  {
  }

  /** A leading newline ends an empty first piece. */
  lemma LinesNewline(t: string)
    ensures Lines(['\n'] + t) == [""] + Lines(t)
  {
    assert (['\n'] + t)[1..] == t;
  }

  /** Any other leading character starts the first piece. */
  lemma LinesOther(c: char, t: string)
    requires c != '\n'
    ensures Lines([c] + t) == [[c] + Lines(t)[0]] + Lines(t)[1..]
  {
    assert ([c] + t)[1..] == t;
  }

  // ---------------------------------------------------------------------------
  // Classifying one line

  /** The characters `String.prototype.trim` removes: ECMAScript WhiteSpace and LineTerminator. */
  predicate IsTrimmed(c: char)
  {
    || c == '\t' || c == '\n' || c == '\U{000B}' || c == '\U{000C}' || c == '\r' || c == ' '
    || c == '\U{00A0}' || c == '\U{1680}' || ('\U{2000}' <= c <= '\U{200A}')
    || c == '\U{2028}' || c == '\U{2029}' || c == '\U{202F}' || c == '\U{205F}'
    || c == '\U{3000}' || c == '\U{FEFF}'
  }

  /** `line.trim() === ''`. */
  predicate IsBlank(line: string)
  {
    forall k :: 0 <= k < |line| ==> IsTrimmed(line[k])
  }

  /** `s.startsWith(prefix)`. */
  predicate StartsWith(s: string, prefix: string)
  {
    |prefix| <= |s| && s[..|prefix|] == prefix
  }

  /** What one line of content renders as. */
  datatype Block =
    | Heading1(text: string)
    | Heading2(text: string)
    | Heading3(text: string)
    | ListItem(text: string)
    | Hidden                     // a code-fence line: `null`
    | LineBreak                  // a blank line: `<br/>`
    | Paragraph(text: string)
  {
    predicate HasText() { !Hidden? && !LineBreak? }
  }

  /** The marker that `Classify` strips from a line to get a block's text. */
  function Marker(b: Block): string
  {
    match b
    case Heading1(_) => "# "
    case Heading2(_) => "## "
    case Heading3(_) => "### "
    case ListItem(_) => "- "
    case _ => ""
  }

  /**
   * The per-line classifier. The five marker tests and the blank test are
   * mutually exclusive, so each kind of block is taken exactly when its own
   * test holds; the text of a block is the line with its marker removed.
   */
  function Classify(line: string): (b: Block)
    ensures b.Heading1? <==> StartsWith(line, "# ")
    ensures b.Heading2? <==> StartsWith(line, "## ")
    ensures b.Heading3? <==> StartsWith(line, "### ")
    ensures b.ListItem? <==> StartsWith(line, "- ")
    ensures b.Hidden? <==> StartsWith(line, "```")
    ensures b.LineBreak? <==> IsBlank(line)
    ensures b.HasText() ==> Marker(b) + b.text == line
  {
    MarkersExclusive(line);
    if StartsWith(line, "# ") then Heading1(line[2..])
    else if StartsWith(line, "## ") then Heading2(line[3..])
    else if StartsWith(line, "### ") then Heading3(line[4..])
    else if StartsWith(line, "- ") then ListItem(line[2..])
    else if StartsWith(line, "```") then Hidden
    else if IsBlank(line) then LineBreak
    else Paragraph(line)
  }

  /** No line starts with two of the markers, and no line starting with a marker is blank. */
  lemma MarkersExclusive(line: string)
    ensures StartsWith(line, "# ") ==> line[1] == ' '
    ensures StartsWith(line, "## ") ==> line[1] == '#' && line[2] == ' '
    ensures StartsWith(line, "### ") ==> line[1] == '#' && line[2] == '#'
    ensures StartsWith(line, "- ") || StartsWith(line, "```") ==> !IsTrimmed(line[0])
    ensures StartsWith(line, "# ") || StartsWith(line, "## ") || StartsWith(line, "### ") ==> line[0] == '#'
    ensures StartsWith(line, "- ") ==> line[0] == '-'
    ensures StartsWith(line, "```") ==> line[0] == '`'
  {
    if StartsWith(line, "# ") { assert line[..2][1] == line[1]; }
    if StartsWith(line, "## ") { assert line[..3][1] == line[1] && line[..3][2] == line[2]; }
    if StartsWith(line, "### ") { assert line[..4][1] == line[1] && line[..4][2] == line[2]; }
    if |line| > 0 { assert line[..1][0] == line[0]; }
    if StartsWith(line, "# ") { assert line[..2][0] == line[0]; }
    if StartsWith(line, "## ") { assert line[..3][0] == line[0]; }
    if StartsWith(line, "### ") { assert line[..4][0] == line[0]; }
    if StartsWith(line, "- ") { assert line[..2][0] == line[0]; }
    if StartsWith(line, "```") { assert line[..3][0] == line[0]; }
  }

  /** Writing a heading or list item's marker before any text gives a line that renders as it. */
  lemma ClassifyMarked(b: Block)
    requires b.Heading1? || b.Heading2? || b.Heading3? || b.ListItem?
    ensures Classify(Marker(b) + b.text) == b
  {
    var line := Marker(b) + b.text;
    assert line[..|Marker(b)|] == Marker(b);
  }

  /** `lines.map(...)`: the block of each line, in order. */
  function Blocks(lines: seq<string>): (r: seq<Block>)
    ensures |r| == |lines|
  {
    if lines == [] then [] else [Classify(lines[0])] + Blocks(lines[1..])
  }

  /** The `k`-th block is the classification of the `k`-th line. */
  lemma {:induction false} BlocksAt(lines: seq<string>, k: nat)
    requires k < |lines|
    ensures Blocks(lines)[k] == Classify(lines[k])
  {
    if k > 0 {
      BlocksAt(lines[1..], k - 1);
    }
  }

  /** Mapping over two runs of lines maps each run. */
  lemma {:induction false} BlocksAppend(x: seq<string>, y: seq<string>)
    ensures Blocks(x + y) == Blocks(x) + Blocks(y)
  {
    if x != [] {
      assert (x + y)[1..] == x[1..] + y;
      BlocksAppend(x[1..], y);
    } else {
      assert x + y == y;
    }
  }

  /** The whole content: one block per `'\n'`-separated line, in order. */
  function Render(content: string): seq<Block>
  {
    Blocks(Lines(content))
  }

  /** There is one block more than there are newlines: every line gets a slot, fence lines included. */
  lemma RenderCount(content: string)
    ensures |Render(content)| == multiset(content)['\n'] + 1
  {
    LinesCount(content);
  }

  /** Each block is the classification of the line in the same position. */
  lemma RenderEachLine(content: string, k: nat)
    requires k < |Render(content)|
    ensures Render(content)[k] == Classify(Lines(content)[k])
  {
    BlocksAt(Lines(content), k);
  }

  /**
   * Rendering keeps no state between lines: the blocks of two pieces of
   * content joined by a newline are the blocks of each piece, one after the other.
   */
  lemma RenderAround(a: string, b: string)
    ensures Render(a + "\n" + b) == Render(a) + Render(b)
  {
    LinesAround(a, b);
    BlocksAppend(Lines(a), Lines(b));
  }

  /** A line with no newline renders as its own block. */
  lemma RenderLine(line: string)
    requires '\n' !in line
    ensures Render(line) == [Classify(line)]
  {
    LinesOfLine(line);
    assert Blocks([line]) == [Classify(line)] + Blocks([]);
  }

  /**
   * Inside a code fence the classifier goes on as everywhere else: a line
   * starting with "# " (a Python comment, say) between two fence lines becomes
   * a top-level heading, and the fence lines themselves are hidden.
   */
  lemma FencedCommentIsHeading(opening: string, comment: string, closing: string)
    requires '\n' !in opening && '\n' !in comment && '\n' !in closing
    requires StartsWith(opening, "```") && StartsWith(comment, "# ") && StartsWith(closing, "```")
    ensures Render(opening + "\n" + comment + "\n" + closing) == [Hidden, Heading1(comment[2..]), Hidden]
  {
    RenderThreeLines(opening + "\n" + comment + "\n" + closing, opening, comment, closing);
  }

  /** Three newline-free lines render as their three blocks. */
  lemma RenderThreeLines(content: string, a: string, b: string, c: string)
    requires '\n' !in a && '\n' !in b && '\n' !in c
    requires content == a + "\n" + b + "\n" + c
    ensures Render(content) == [Classify(a), Classify(b), Classify(c)]
  {
    var tail := b + "\n" + c;
    assert content == a + "\n" + tail;
    RenderTwoLines(b, c);
    RenderFirstLine(a, tail);
  }

  /** Two newline-free lines render as their two blocks. */
  lemma RenderTwoLines(b: string, c: string)
    requires '\n' !in b && '\n' !in c
    ensures Render(b + "\n" + c) == [Classify(b), Classify(c)]
  {
    RenderLine(b);
    RenderLine(c);
    RenderAround(b, c);
  }

  /** A newline-free first line contributes its own block ahead of the rest. */
  lemma RenderFirstLine(a: string, tail: string)
    requires '\n' !in a
    ensures Render(a + "\n" + tail) == [Classify(a)] + Render(tail)
  {
    RenderLine(a);
    RenderAround(a, tail);
  }

  // ---------------------------------------------------------------------------
  // The page

  /** `id || ""`: a missing route parameter reads as the empty id. */
  function RouteId(param: Option<string>): string
  {
    match param
    case None => ""
    case Some(id) => id
  }

  /** The related-posts test: another post (by id) of the same category. */
  function IsRelatedTo(current: BlogPost): BlogPost -> bool
  {
    (p: BlogPost) => p.id != current.id && p.category == current.category
  }

  /**
   * `relatedPosts`: the first two posts, in list order, that have the current
   * post's category and a different id.
   */
  function RelatedPosts(posts: seq<BlogPost>, current: BlogPost): (r: seq<BlogPost>)
    ensures |r| <= 2
    ensures forall q :: q in r ==> q in posts && q.id != current.id && q.category == current.category
    ensures IsSubsequence(r, posts)
    ensures r <= Filter(posts, IsRelatedTo(current))
    ensures |r| == if |Filter(posts, IsRelatedTo(current))| < 2 then |Filter(posts, IsRelatedTo(current))| else 2
  {
    var all := Filter(posts, IsRelatedTo(current));
    var r := Take(all, 2);
    SubsequenceOfPrefix(r, all, posts);
    assert forall q :: q in r ==> q in all;
    r
  }

  /** A prefix of a subsequence is a subsequence. */
  lemma {:induction false} SubsequenceOfPrefix<T>(r: seq<T>, s: seq<T>, t: seq<T>)
    requires r <= s && IsSubsequence(s, t)
    ensures IsSubsequence(r, t)
    decreases |t|
  {
    if r != [] {
      assert t != [];
      if s[0] == t[0] && IsSubsequence(s[1..], t[1..]) {
        SubsequenceOfPrefix(r[1..], s[1..], t[1..]);
      } else {
        SubsequenceOfPrefix(r, s, t[1..]);
      }
    }
  }

  /** What the page shows. */
  datatype View =
    | NotFound
    | Article(post: BlogPost, gradient: string, related: seq<BlogPost>, showRelated: bool)

  /** The page for a route parameter. */
  function Page(param: Option<string>): (v: View)
    ensures v.NotFound? <==> forall p :: p in BlogPosts ==> p.id != RouteId(param)
    ensures v.Article? ==> v.post in BlogPosts && v.post.id == RouteId(param)
    ensures v.Article? ==> v.related == RelatedPosts(BlogPosts, v.post) && v.gradient == Palette.Gradient(v.post.category)
    ensures v.Article? ==> (v.showRelated <==> v.related != [])
  {
    match GetBlogPostById(RouteId(param))
    case None => NotFound
    case Some(post) =>
      var related := RelatedPosts(BlogPosts, post);
      Article(post, Palette.Gradient(post.category), related, |related| > 0)
  }

  /** With the shipped posts a missing or empty route parameter always gives the not-found view. */
  lemma EmptyIdNotFound()
    ensures Page(None) == NotFound && Page(Some("")) == NotFound
  {
  }

  /**
   * No two shipped posts share a category, so no shipped article has related
   * posts.
   */
  lemma NoRelatedArticles(post: BlogPost)
    requires post in BlogPosts
    ensures RelatedPosts(BlogPosts, post) == []
  {
    ShippedPostsDistinct();
    NoRelatedInDistinct(BlogPosts, post);
  }

  /** In a list whose posts all have different categories, no post has related posts. */
  lemma NoRelatedInDistinct(posts: seq<BlogPost>, post: BlogPost)
    requires post in posts
    requires forall i, j :: 0 <= i < j < |posts| ==> posts[i].category != posts[j].category
    ensures RelatedPosts(posts, post) == []
  {
    NoneRelated(posts, post);
    var all := Filter(posts, IsRelatedTo(post));
    assert forall q :: q in all ==> q in posts && IsRelatedTo(post)(q);
  }

  /** In a list whose posts all have different categories, no post of the list is related to another. */
  lemma NoneRelated(posts: seq<BlogPost>, post: BlogPost)
    requires post in posts
    requires forall i, j :: 0 <= i < j < |posts| ==> posts[i].category != posts[j].category
    ensures forall q :: q in posts ==> !IsRelatedTo(post)(q)
  {
    forall q | q in posts
      ensures !IsRelatedTo(post)(q)
    {
      var i :| 0 <= i < |posts| && posts[i] == q;
      var j :| 0 <= j < |posts| && posts[j] == post;
      if i < j {
        assert posts[i].category != posts[j].category;
      } else if j < i {
        assert posts[j].category != posts[i].category;
      }
    }
  }

  /** With the shipped posts the Related Articles card is never shown. */
  lemma RelatedCardNeverShown(param: Option<string>)
    ensures Page(param).Article? ==> !Page(param).showRelated
  {
    var v := Page(param);
    if v.Article? {
      NoRelatedArticles(v.post);
    }
  }
}
