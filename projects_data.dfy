/**
 * The project catalogue (client/src/lib/projectsData.ts): a fixed list of
 * projects, a lookup by id with `find` semantics and a category filter in
 * which "All" means no filter.
 */
module ProjectsData {
  import opened Wrappers
  import opened Seqs

  /** The fields of a portfolio project that the site's logic reads or shows. */
  datatype Project = Project(id: string, title: string, category: string, technologies: seq<string>)

  /** The shipped catalogue, in list order. */
  const Projects: seq<Project> := [
    Project("1", "E-Commerce Platform", "Web Development",
      ["React", "Node.js", "PostgreSQL", "Stripe", "TypeScript", "Tailwind CSS"]),
    Project("2", "Sales Analytics Dashboard", "Data Analysis",
      ["Python", "Pandas", "Plotly", "SQL", "FastAPI", "React"]),
    Project("3", "ETL Data Pipeline", "Data Engineering",
      ["Apache Airflow", "Python", "Spark", "AWS S3", "Redshift", "Docker"]),
    Project("4", "Inventory Management System", "Database",
      ["MySQL", "Express", "React", "Docker", "Redis", "TypeScript"]),
    Project("5", "Task Management App", "Web Development",
      ["Next.js", "Prisma", "TypeScript", "Tailwind", "WebSocket", "PostgreSQL"]),
    Project("6", "Customer Segmentation Analysis", "Data Analysis",
      ["Python", "Scikit-learn", "Jupyter", "Tableau", "K-means", "Pandas"])
  ]

  /** The filter value that stands for "no filter". */
  const AllCategories := "All"

  /** The category test of the filter: `p.category === category`. */
  function InCategory(category: string): Project -> bool
  {
    (p: Project) => p.category == category
  }

  /** The lookup over any catalogue: the first project, in list order, whose id is `id`. */
  function ProjectById(catalogue: seq<Project>, id: string): (r: Option<Project>)
    ensures r.Some? ==> r.value in catalogue && r.value.id == id
    ensures r.None? <==> forall p :: p in catalogue ==> p.id != id
    ensures r.Some? ==> exists k :: 0 <= k < |catalogue| && catalogue[k] == r.value &&
                                    forall j :: 0 <= j < k ==> catalogue[j].id != id
  {
    Find(catalogue, (p: Project) => p.id == id)
  }

  /**
   * The category filter over any catalogue: "All" gives the catalogue itself;
   * any other value gives exactly the projects of that category, in order.
   */
  function ProjectsByCategory(catalogue: seq<Project>, category: string): (r: seq<Project>)
    ensures category == AllCategories ==> r == catalogue
    ensures category != AllCategories ==> Selects(r, catalogue, InCategory(category))
    ensures |r| <= |catalogue|
  {
    if category == AllCategories then catalogue
    else Filter(catalogue, InCategory(category))
  }

  /** No two shipped projects share an id. */
  lemma ShippedIdsDistinct()
    ensures forall i, j :: 0 <= i < j < |Projects| ==> Projects[i].id != Projects[j].id
  {
  }

  /** `getProjectById` on the shipped catalogue. */
  function GetProjectById(id: string): (r: Option<Project>)
    ensures r.Some? <==> id in {"1", "2", "3", "4", "5", "6"}
    ensures r.Some? ==> r.value in Projects && r.value.id == id
  {
    ProjectById(Projects, id)
  }

  /** `getProjectsByCategory` on the shipped catalogue. */
  function GetProjectsByCategory(category: string): (r: seq<Project>)
    ensures category == AllCategories ==> r == Projects
    ensures category != AllCategories ==> Selects(r, Projects, InCategory(category))
  {
    ProjectsByCategory(Projects, category)
  }

  /**
   * Because the shipped ids are distinct, looking up each shipped project's id
   * yields exactly that project, and the empty id yields nothing.
   */
  lemma ShippedLookups()
    ensures forall k :: 0 <= k < |Projects| ==> GetProjectById(Projects[k].id) == Some(Projects[k])
    ensures GetProjectById("") == None
  {
    ShippedIdsDistinct();
    forall k | 0 <= k < |Projects|
      ensures GetProjectById(Projects[k].id) == Some(Projects[k])
    {
      LookupOfDistinct(Projects, k);
    }
  }

  /** In a catalogue with distinct ids, the lookup of an entry's id finds that entry. */
  lemma LookupOfDistinct(catalogue: seq<Project>, k: nat)
    requires k < |catalogue|
    requires forall i, j :: 0 <= i < j < |catalogue| ==> catalogue[i].id != catalogue[j].id
    ensures ProjectById(catalogue, catalogue[k].id) == Some(catalogue[k])
  {
    var r := ProjectById(catalogue, catalogue[k].id);
    var m :| 0 <= m < |catalogue| && catalogue[m] == r.value &&
             forall j :: 0 <= j < m ==> catalogue[j].id != catalogue[k].id;
  }
}
