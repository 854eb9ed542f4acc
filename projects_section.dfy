/**
 * The projects section of the home page (client/src/components/Projects.tsx):
 * its own list of projects, the category buttons, the filtered card grid and
 * the empty-state message.
 */
module ProjectsSection {
  import opened Seqs
  import opened ProjectsData
  import Palette

  /** The filter buttons, in the order they are shown. */
  const Categories: seq<string> := ["All", "Web Development", "Data Analysis", "Data Engineering", "Database"]

  /** The section's own project list (shorter technology lists than the catalogue's). */
  const LocalProjects: seq<Project> := [
    Project("1", "E-Commerce Platform", "Web Development", ["React", "Node.js", "PostgreSQL", "Stripe"]),
    Project("2", "Sales Analytics Dashboard", "Data Analysis", ["Python", "Pandas", "Plotly", "SQL"]),
    Project("3", "ETL Data Pipeline", "Data Engineering", ["Apache Airflow", "Python", "Spark", "AWS"]),
    Project("4", "Inventory Management System", "Database", ["MySQL", "Express", "React", "Docker"]),
    Project("5", "Task Management App", "Web Development", ["Next.js", "Prisma", "TypeScript", "Tailwind"]),
    Project("6", "Customer Segmentation Analysis", "Data Analysis", ["Python", "Scikit-learn", "Jupyter", "Tableau"])
  ]

  /** `filteredProjects` for the active button: the "All or equal category" rule on the local list. */
  function FilteredProjects(active: string): (r: seq<Project>)
    ensures active == AllCategories ==> r == LocalProjects
    ensures active != AllCategories ==> Selects(r, LocalProjects, InCategory(active))
  {
    ProjectsByCategory(LocalProjects, active)
  }

  /** The "No projects found" message is rendered. */
  predicate ShowsEmptyState(active: string)
  {
    |FilteredProjects(active)| == 0
  }

  /** What one card of the grid shows. */
  datatype ProjectCard = ProjectCard(project: Project, delayMs: nat, gradient: string)

  /** The cards of the grid, in order. */
  function Cards(active: string): (cards: seq<ProjectCard>)
    ensures |cards| == |FilteredProjects(active)|
    ensures forall k :: 0 <= k < |cards| ==>
      && cards[k].project == FilteredProjects(active)[k]
      && cards[k].delayMs == 100 * k
      && cards[k].gradient == Palette.Gradient(cards[k].project.category)
      && (cards[k].gradient == Palette.DefaultGradient <==> cards[k].project.category !in Palette.CategoryColors)
  {
    var shown := FilteredProjects(active);
    seq(|shown|, k requires 0 <= k < |shown| => ProjectCard(shown[k], k * 100, Palette.Gradient(shown[k].category)))
  }

  /** The empty-state message is rendered exactly when the grid has no cards. */
  lemma EmptyStateIffNoCards(active: string)
    ensures ShowsEmptyState(active) <==> Cards(active) == []
  {
  }

  /** Every button's filter matches some local project, so the empty state is never reached. */
  lemma EmptyStateUnreachable(active: string)
    requires active in Categories
    ensures !ShowsEmptyState(active)
  {
    if active != AllCategories {
      var k := if active == "Web Development" then 0
               else if active == "Data Analysis" then 1
               else if active == "Data Engineering" then 2
               else 3;
      assert LocalProjects[k].category == active;
      FilterNonEmpty(LocalProjects, InCategory(active), k);
    }
  }

  /** Every local project has a category with a gradient of its own. */
  lemma LocalCategoriesColoured()
    ensures forall k :: 0 <= k < |LocalProjects| ==> LocalProjects[k].category in Palette.CategoryColors
  {
  }

  /** No card of the grid falls back to the default gradient. */
  lemma NoProjectUsesDefaultGradient(active: string)
    ensures forall c :: c in Cards(active) ==> c.gradient != Palette.DefaultGradient
  {
    var shown := FilteredProjects(active);
    LocalCategoriesColoured();
    forall k | 0 <= k < |shown| ensures shown[k].category in Palette.CategoryColors {
      assert shown[k] in LocalProjects;
    }
  }

  /** The local list has the catalogue's ids, titles and categories, in the same order. */
  lemma LocalListMatchesCatalogue()
    ensures |LocalProjects| == |Projects|
    ensures forall k :: 0 <= k < |Projects| ==>
      LocalProjects[k].id == Projects[k].id && LocalProjects[k].title == Projects[k].title &&
      LocalProjects[k].category == Projects[k].category
  {
  }
}
