# Portfolio site logic, modelled in Dafny

This project models the small pieces of real logic in a personal portfolio
website (a React single-page app), and proves what they promise:

- **Catalogue queries** (`client/src/lib/projectsData.ts`, `client/src/lib/blogData.ts`):
  the lookup by id with `Array.prototype.find` semantics, and the category
  filter in which "All" means no filter. Both are stated over any list and over
  the shipped lists, together with the shipped data's own facts (distinct ids,
  one post per category).
- **The article page** (`client/src/pages/blog-detail.tsx`):
  - the choice between the not-found view and the article;
  - the related-posts rule (a filter followed by a take of two);
  - the line-by-line renderer of an article's Markdown-style content, which is
    `split('\n')` followed by a stateless per-line classifier.
- **The listing sections** (`client/src/components/Projects.tsx`, `client/src/components/Blog.tsx`):
  - the category buttons and the filtered card grid;
  - each card's transition delay and gradient;
  - the three-tag excerpt and the read-more link;
  - the empty-state message.
- **The hero typewriter** (`client/src/components/Hero.tsx`): a state machine
  over (role index, displayed text, deleting flag). It is specified by a
  function `Next` and implemented by the class `Typewriter`, whose `Step`
  updates the three fields in place.
- **The navigation bar** (`client/src/components/Navigation.tsx`):
  - the scrolled flag;
  - the scroll-spy, a reversed scan that stops at the first section whose top
    is at most 100;
  - the mobile menu;
  - which link is highlighted.

  The page's DOM is read through a `Layout` map from section id to the top of
  its element.
- **The particle background** (`client/src/components/ParticlesBackground.tsx`):
  - the particle count;
  - the creation of particles from `Math.random()` draws, which are passed in;
  - one animation frame, carried out in place on an `array` of particles:
    reflection, proximity links, the pointer gate and damping.

  Positions and velocities are exact reals. The pointer force and the speed
  clamp need square roots, so the frame takes them as a function parameter. The
  frame applies that function exactly where the code does, and the gate is
  decided exactly, on squared distances.

Reflection at the canvas edge is a sign flip of the velocity, without clamping
the position. This is sometimes read as "a particle is outside the canvas for
at most one frame". The code does not keep that promise, and the model follows
the code: `Particles.StaysOutside` exhibits a particle that stays left of the
canvas for four frames in a row. Its velocity flips every frame while it
hovers just outside the edge.

Modules: `Wrappers` (Option), `Seqs` (filter/find/take), `ProjectsData`,
`BlogData`, `Palette` (the category gradient table that three files declare
identically), `BlogDetail`, `ProjectsSection`, `BlogSection`, `Hero`,
`Navigation`, `Particles`.

## Model

| member | source | states |
|---|---|---|
| Seqs.Filter | client/src/lib/projectsData.ts:174 | `filter` keeps exactly the elements that pass, each as often as in the input, in input order, and is never longer than the input |
| Seqs.FindIndex | client/src/lib/projectsData.ts:169 | the position `find` stops at is the first element that passes; there is none exactly when no element passes |
| Seqs.Find | client/src/lib/projectsData.ts:169 | `find` returns the element at the first passing position, and `undefined` exactly when no element passes |
| Seqs.Take | client/src/components/Blog.tsx:94 | `slice(0, n)` is a prefix of length `min(n, length)` |
| ProjectsData.ProjectById | client/src/lib/projectsData.ts:168-170 | a found project is in the list and has the id; nothing is found exactly when no project has the id; when several share it, the first in list order is returned |
| ProjectsData.ProjectsByCategory | client/src/lib/projectsData.ts:172-175 | "All" returns the list unchanged; any other category returns exactly the projects of that category, in list order, never more than the list |
| ProjectsData.GetProjectById | client/src/lib/projectsData.ts:168-170 | on the shipped list a project is found exactly for the ids "1" to "6", and it has that id |
| ProjectsData.GetProjectsByCategory | client/src/lib/projectsData.ts:172-175 | the "All or exactly that category, in order" rule on the shipped list |
| ProjectsData.ShippedIdsDistinct | client/src/lib/projectsData.ts:3-166 | the six shipped ids are pairwise distinct |
| ProjectsData.LookupOfDistinct | client/src/lib/projectsData.ts:168-170 | in any list with distinct ids, looking up an entry's id yields that entry |
| ProjectsData.ShippedLookups | client/src/lib/projectsData.ts:3-170 | each shipped id finds exactly its own project, and the empty id finds nothing |
| BlogData.PostById | client/src/lib/blogData.ts:366-368 | a found post is in the list and has the id; nothing is found exactly when no post has it; the first match in list order is returned |
| BlogData.PostsByCategory | client/src/lib/blogData.ts:370-373 | "All" returns the list unchanged; any other category returns exactly its posts, in list order |
| BlogData.SoleOfCategory | client/src/lib/blogData.ts:370-373 | a post whose category no other post has is the whole result of filtering by its category |
| BlogData.ShippedPostsDistinct | client/src/lib/blogData.ts:3-364 | the four shipped posts have pairwise distinct ids and pairwise distinct categories |
| BlogData.GetBlogPostById | client/src/lib/blogData.ts:366-368 | on the shipped list a post is found exactly for the ids "1" to "4", and it has that id |
| BlogData.GetBlogPostsByCategory | client/src/lib/blogData.ts:370-373 | the "All or exactly that category, in order" rule on the shipped posts |
| BlogData.LookupOfDistinct | client/src/lib/blogData.ts:366-368 | in any list with distinct ids, looking up an entry's id yields that entry |
| BlogData.ShippedLookups | client/src/lib/blogData.ts:3-368 | each shipped post id finds exactly its own post, and the empty id finds nothing |
| BlogDetail.Lines | client/src/pages/blog-detail.tsx:115 | `split('\n')` always yields at least one piece |
| BlogDetail.LinesCount | client/src/pages/blog-detail.tsx:115 | there is one piece more than there are newlines, and no piece contains a newline |
| BlogDetail.JoinLines | client/src/pages/blog-detail.tsx:115 | joining the pieces with newlines gives back the content, so no character is lost |
| BlogDetail.LinesOfLine | client/src/pages/blog-detail.tsx:115 | a newline-free line splits into itself alone |
| BlogDetail.LinesJoin | client/src/pages/blog-detail.tsx:115 | splitting the join of newline-free pieces gives back the pieces, so split and join are inverse |
| BlogDetail.LinesAround | client/src/pages/blog-detail.tsx:115 | a newline splits the content into the pieces before it followed by the pieces after it |
| BlogDetail.Classify | client/src/pages/blog-detail.tsx:116-134 | each block kind is chosen exactly when its own test holds ("# ", "## ", "### ", "- ", "```", blank); the tests never overlap, so the fixed order decides nothing; a heading's or item's text is the line without its 2, 3, 4 or 2 marker characters; a paragraph keeps the whole line |
| BlogDetail.MarkersExclusive | client/src/pages/blog-detail.tsx:116-131 | no line starts with two of the markers, and no line that starts with a marker is blank |
| BlogDetail.ClassifyMarked | client/src/pages/blog-detail.tsx:116-126 | a marker written before any text gives a line that is classified back as that heading or item with that text |
| BlogDetail.Blocks | client/src/pages/blog-detail.tsx:115-135 | the per-line `map` yields one block per line |
| BlogDetail.BlocksAppend | client/src/pages/blog-detail.tsx:115-135 | the `map` is applied line by line: the blocks of two lists of lines are the blocks of each, in order |
| BlogDetail.RenderCount | client/src/pages/blog-detail.tsx:115-135 | the content renders as one block per newline-separated line, so newlines + 1 blocks, fence lines included as hidden blocks |
| BlogDetail.RenderEachLine | client/src/pages/blog-detail.tsx:115-135 | the k-th block is the classification of the k-th line and of nothing else |
| BlogDetail.RenderAround | client/src/pages/blog-detail.tsx:115-135 | the renderer keeps no state between lines: the blocks of `a + "\n" + b` are the blocks of `a` followed by those of `b` |
| BlogDetail.RenderLine | client/src/pages/blog-detail.tsx:115-135 | a newline-free line renders as its own single block |
| BlogDetail.RenderFirstLine | client/src/pages/blog-detail.tsx:115-135 | a newline-free first line renders as its own block, ahead of the blocks of the rest |
| BlogDetail.RenderTwoLines | client/src/pages/blog-detail.tsx:115-135 | two newline-free lines render as their two blocks |
| BlogDetail.RenderThreeLines | client/src/pages/blog-detail.tsx:115-135 | three newline-free lines render as their three blocks |
| BlogDetail.FencedCommentIsHeading | client/src/pages/blog-detail.tsx:115-135 | a `# ...` comment between two fence lines renders as a top-level heading, with both fence lines hidden |
| BlogDetail.RelatedPosts | client/src/pages/blog-detail.tsx:49-51 | related posts are at most two, never the current post (by id), all of its category, in list order, and are the first two such posts |
| BlogDetail.SubsequenceOfPrefix | client/src/pages/blog-detail.tsx:49-51 | taking a prefix of the filtered posts keeps them a subsequence of the list |
| BlogDetail.Page | client/src/pages/blog-detail.tsx:13-51 | the not-found view is chosen exactly when no post has the route id (a missing id reads as ""); otherwise the article shows the post with that id, its category's gradient and exactly `RelatedPosts` of it, and its Related Articles card is shown exactly when there are related posts |
| BlogDetail.EmptyIdNotFound | client/src/pages/blog-detail.tsx:13-16 | a missing or empty route id gives the not-found view |
| BlogDetail.NoneRelated | client/src/pages/blog-detail.tsx:50 | in a list whose categories are distinct, no post of it is related to a list post |
| BlogDetail.NoRelatedInDistinct | client/src/pages/blog-detail.tsx:49-51 | in a list whose categories are distinct, every post has no related posts |
| BlogDetail.NoRelatedArticles | client/src/pages/blog-detail.tsx:49-51 | no shipped post has related posts |
| BlogDetail.RelatedCardNeverShown | client/src/pages/blog-detail.tsx:158 | with the shipped posts the Related Articles card is never shown, whatever the route |
| Palette.Gradient | client/src/components/Projects.tsx:100-122 | the default gradient is used exactly for categories without an entry; a known category gets its entry, different from every other entry |
| ProjectsSection.FilteredProjects | client/src/components/Projects.tsx:184-187 | "All" shows the local list; any other button shows exactly the local projects of that category, in order |
| ProjectsSection.Cards | client/src/components/Projects.tsx:100-122 | one card per filtered project, in order, with delay 100 ms times its position and the gradient of its category (the default exactly when the category has none) |
| ProjectsSection.EmptyStateIffNoCards | client/src/components/Projects.tsx:240-246 | the empty-state message shows exactly when the grid has no cards |
| ProjectsSection.EmptyStateUnreachable | client/src/components/Projects.tsx:8-67 | every button matches some local project, so the empty state is never shown |
| ProjectsSection.LocalCategoriesColoured | client/src/components/Projects.tsx:16-67 | every local project's category has a gradient of its own |
| ProjectsSection.NoProjectUsesDefaultGradient | client/src/components/Projects.tsx:100-122 | no project card falls back to the default gradient |
| ProjectsSection.LocalListMatchesCatalogue | client/src/components/Projects.tsx:16-67 | the section's own list has the catalogue's ids, titles and categories, in the same order |
| BlogSection.FilteredPosts | client/src/components/Blog.tsx:134-137 | "All" shows every post; any other button shows exactly the posts of that category, in order |
| BlogSection.ShownTags | client/src/components/Blog.tsx:94 | the shown tags are a prefix of the post's tags: all of them when there are at most three, and exactly the first three otherwise |
| BlogSection.ReadMoreHref | client/src/components/Blog.tsx:100 | the link target starts with "/blog/" and is followed by exactly the id's characters |
| BlogSection.HrefRoundTrip | client/src/components/Blog.tsx:100 | the id read back from a link target is the id it was made from |
| BlogSection.ReadMoreOpensArticle | client/src/components/Blog.tsx:100 | following a shipped post's link opens the article of that very post |
| BlogSection.Cards | client/src/components/Blog.tsx:185-187 | one card per filtered post, in order, with delay 100 ms times its position, exactly `ShownTags` of its tags, the gradient of its category, and its read-more link |
| BlogSection.EmptyStateIffNoCards | client/src/components/Blog.tsx:190-196 | the empty-state message shows exactly when the grid has no cards |
| BlogSection.OnePostPerCategory | client/src/components/Blog.tsx:134-137 | with the shipped posts each button other than "All" shows exactly one post, so never the empty state |
| Hero.Next | client/src/components/Hero.tsx:18-42 | one effect run keeps the role index in range |
| Hero.DelayMs | client/src/components/Hero.tsx:20-39 | the pause waits 2000 ms, a deleting step 50 ms, a typing step 100 ms, and the wrap happens at once |
| Hero.StepEffect | client/src/components/Hero.tsx:18-42 | each run keeps the text a prefix of the current role; typing adds exactly the role's next character; deleting removes exactly the last one; the pause only sets the deleting flag; the wrap only moves to the next role modulo 4 and types again from "" |
| Hero.TypeOne | client/src/components/Hero.tsx:37 | typing into a proper prefix of the role appends the role's next character |
| Hero.DeleteOne | client/src/components/Hero.tsx:35 | deleting from a non-empty prefix removes its last character |
| Hero.Run | client/src/components/Hero.tsx:18-42 | any number of runs keeps the role index in range |
| Hero.ValidRun | client/src/components/Hero.tsx:18-42 | from a valid state every later state is valid |
| Hero.AlwaysValid | client/src/components/Hero.tsx:14-37 | from the state on mount the text is always a prefix of the current role, and the index stays in range |
| Hero.RunAdd | client/src/components/Hero.tsx:18-42 | `a` runs followed by `b` runs are `a + b` runs |
| Hero.Typing | client/src/components/Hero.tsx:37 | `n` typing runs from the first `m` characters show the first `m + n` |
| Hero.Deleting | client/src/components/Hero.tsx:35 | `n` deleting runs from the first `m` characters leave the first `m - n` |
| Hero.TypesWholeRole | client/src/components/Hero.tsx:15-37 | from "" exactly `|role|` typing runs spell the whole role |
| Hero.TypeThenPause | client/src/components/Hero.tsx:22-24 | typing the whole role and pausing takes `|role| + 1` runs and ends deleting with the whole role shown |
| Hero.DeleteThenWrap | client/src/components/Hero.tsx:27-35 | deleting the whole role and wrapping takes `|role| + 1` runs and starts the next role, typing from "" |
| Hero.FullCycle | client/src/components/Hero.tsx:18-42 | a full cycle of `2 * |role| + 2` runs goes from role `i` with "" to role `i + 1` modulo 4 with "", so the roles cycle 0, 1, 2, 3, 0 |
| Hero.Typewriter.constructor | client/src/components/Hero.tsx:14-16 | the banner starts at role 0, empty text, typing |
| Hero.Typewriter.Step | client/src/components/Hero.tsx:18-42 | one run updates the three fields to `Next` of the old state and waits `DelayMs` of it, keeping the state valid |
| Navigation.SectionIds | client/src/components/Navigation.tsx:23 | one id per link, in order, each the href without its first character |
| Navigation.SectionsValue | client/src/components/Navigation.tsx:6-23 | the scroll-spy's candidates are home, about, services, projects and contact |
| Navigation.LastReachedMeaning | client/src/components/Navigation.tsx:23-33 | nothing is found exactly when no section's element exists with top at most 100; otherwise the found section is reached and no later section is |
| Navigation.LastReachedStep | client/src/components/Navigation.tsx:24-33 | scanning from the back: the last section if it is reached, else the scan of those before it |
| Navigation.ScanActive | client/src/components/Navigation.tsx:23-33 | the reversed scan with `break` returns the last section in page order that is reached, or nothing |
| Navigation.SectionsDistinct | client/src/components/Navigation.tsx:6-12 | no two links point at the same section |
| Navigation.OneLinkPerSection | client/src/components/Navigation.tsx:81 | exactly one link has the active section's id, so exactly one link is highlighted |
| Navigation.NeverBlog | client/src/components/Navigation.tsx:17-29 | the active section is never "blog" |
| Navigation.NavBar.constructor | client/src/components/Navigation.tsx:15-17 | the bar starts unscrolled, with the menu closed and "home" active |
| Navigation.NavBar.HandleScroll | client/src/components/Navigation.tsx:20-34 | the scrolled flag is `scrollY > 50`; the active section becomes the last reached section, or keeps its old value when none is reached; it stays one of the bar's sections; the menu is untouched |
| Navigation.NavBar.ScrollToSection | client/src/components/Navigation.tsx:40-46 | it scrolls exactly when the page has the target element, and it always closes the menu |
| Navigation.NavBar.ToggleMenu | client/src/components/Navigation.tsx:119 | the menu button flips the open flag and changes nothing else |
| Particles.ParticleCount | client/src/components/ParticlesBackground.tsx:19 | at most 80 particles; the cap applies exactly when the area is at least 80 x 15000, and below it the count is the area divided by 15000, rounded down |
| Particles.CountMonotone | client/src/components/ParticlesBackground.tsx:19 | a larger viewport never gets fewer particles |
| Particles.CountExamples | client/src/components/ParticlesBackground.tsx:19 | 1000 x 1000 gives 66 particles, and an area under 15000 gives none |
| Particles.Spawn | client/src/components/ParticlesBackground.tsx:20-27 | a new particle's velocity components lie in [-0.25, 0.25), its size in [1, 3) and its opacity in [0.2, 0.7) |
| Particles.SpawnOnCanvas | client/src/components/ParticlesBackground.tsx:21-22 | a new particle starts in [0, width) x [0, height) |
| Particles.InitParticles | client/src/components/ParticlesBackground.tsx:18-28 | initialisation yields exactly `ParticleCount` particles, the k-th made from the k-th draw |
| Particles.AdvanceRule | client/src/components/ParticlesBackground.tsx:36-81 | away from the pointer, a frame moves the position by the old velocity with no clamping, negates a velocity component exactly when its coordinate ends outside the canvas, damps it by 0.99, and keeps size and opacity |
| Particles.SpeedDecays | client/src/components/ParticlesBackground.tsx:80-81 | away from the pointer, each frame multiplies the squared speed by 0.99 squared |
| Particles.StaysOutside | client/src/components/ParticlesBackground.tsx:36-40 | a particle just left of the canvas and moving left stays at x < 0 for four frames in a row |
| Particles.FrameLinksExactly | client/src/components/ParticlesBackground.tsx:47-61 | a frame draws the line for a pair exactly when `i < j` and moved particle `i` is within 150 of unmoved particle `j`, and draws no other line |
| Particles.FrameLinksOrdered | client/src/components/ParticlesBackground.tsx:47-48 | the lines come in strictly increasing pair order, so each unordered pair is considered once and never a particle with itself; there are at most n(n-1)/2 lines |
| Particles.ParticleField.constructor | client/src/components/ParticlesBackground.tsx:92-102 | the first resize sizes the canvas to the window and fills it with a fresh `InitParticles` array; the pointer starts at (0, 0) |
| Particles.ParticleField.Resize | client/src/components/ParticlesBackground.tsx:92-96 | a resize replaces the particle array wholesale with a fresh one of `ParticleCount` particles, keeping the pointer |
| Particles.ParticleField.MouseMove | client/src/components/ParticlesBackground.tsx:98-100 | the pointer position is remembered and nothing else changes |
| Particles.ParticleField.Bounce | client/src/components/ParticlesBackground.tsx:36-40 | the in-place position step and sign-flip reflection equal `Move` |
| Particles.ParticleField.Push | client/src/components/ParticlesBackground.tsx:63-81 | the pointer gate and the damping, carried out on the moved particle, equal `Damp` of `Interact` |
| Particles.ParticleField.LinkRow | client/src/components/ParticlesBackground.tsx:47-61 | the inner loop over `j` appends exactly the links of row `i` |
| Particles.ParticleField.Frame | client/src/components/ParticlesBackground.tsx:30-82 | one frame updates every particle in place to `Advance` of its old value, and returns exactly `FrameLinks` of the old particles |

## Left out

- Prose fields of projects and posts are not modelled: descriptions, author, date, images, URLs, and the article content itself. A post has no content field, and `Page` renders no article body. The renderer is a function of an arbitrary content string, and its lemmas hold for every string. The date's `toLocaleDateString` formatting is also left out.
- The title initial (`charAt(0)`) and the rgba/opacity strings are presentation only.
- React rendering, `useEffect` scheduling, `setTimeout`/`clearTimeout`, IntersectionObserver reveal animations, `scrollIntoView`, and event-listener registration are left out. Each handler is a method the environment calls. The typewriter's delay is a returned value.
- `requestAnimationFrame` is left out: each call of `Frame` is one frame.
- Canvas drawing is left out. The stroke opacity of a link needs the square root of the distance, so the model records only which pairs are linked and the line's endpoints.
- Particles.ParticleField.Frame: the pointer force, the speed clamp to 2 (both need square roots) and their NaN when the pointer sits exactly on a particle are the `force` parameter. The contract fixes where it is applied, not what it computes.
- Particles.InitParticles: `Math.random()` is replaced by the draws the caller supplies. Each draw is taken to lie in [0, 1), and nothing about its distribution is modelled.
- Navigation.NavBar.ScrollToSection: `document.querySelector(href)` is modelled only for `#id` selectors, which are the only hrefs the bar passes. `present` holds the ids of the page's elements.
- Navigation.ScanActive: `sections.reverse()` reverses, in place, an array that `map` has just created. In the model it is a fresh sequence value, so the bar's links are untouched by construction.
- Navigation.NavBar.HandleScroll: `getBoundingClientRect().top` is an input (`Layout`), with a key present exactly when the element exists.
- Wouter routing is left out: the route parameter is an `Option<string>`.
- The admin page, the project detail page, About (its counters are floating point under `setInterval`), Services, Footer, the home page and the shared schema are not part of this model.
- Inherited JavaScript object keys (such as `categoryColors["constructor"]`) are not modelled. The gradient table is a plain map of its four entries.
- JavaScript numbers are doubles. The model uses exact reals and unbounded integers, with no rounding.
