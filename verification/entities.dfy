/**
 * The two record kinds of the portfolio. Each record is an integer id plus the
 * fields the edit form may overwrite; keeping the id apart from the mutable
 * fields makes "an update never changes the id" hold by construction.
 */
module Entities {

  datatype Entity<F> = Entity(id: int, fields: F)

  datatype ProjectFields = ProjectFields(title: string, description: string)

  datatype ExperienceFields =
    ExperienceFields(company: string, role: string, duration: string, description: string)

  type Project = Entity<ProjectFields>

  type Experience = Entity<ExperienceFields>

  /** No two records of a collection share an id. */
  predicate UniqueIds<F>(s: seq<Entity<F>>) {
    forall i, j :: 0 <= i < j < |s| ==> s[i].id != s[j].id
  }

  // Texts of the first-run records.
  const SalesTitle: string := "Sales Data Analysis"
  const SalesDescription: string := "Analyzed sales trends using Python and Pandas. Created visualizations to identify key revenue drivers and seasonal patterns. Implemented predictive models to forecast future sales."
  const SegmentationTitle: string := "Customer Segmentation"
  const SegmentationDescription: string := "Performed customer segmentation using SQL queries and Python clustering algorithms. Identified distinct customer groups and their purchasing behaviors to optimize marketing strategies."
  const DashboardTitle: string := "Dashboard Development"
  const DashboardDescription: string := "Built interactive dashboards using Matplotlib and SQL. Created real-time reporting tools for business metrics, enabling data-driven decision making across departments."
  const InternCompany: string := "Tech Solutions Inc."
  const InternRole: string := "Data Analyst Intern"
  const InternDuration: string := "Jan 2023 \U{2013} Aug 2023"
  const InternDescription: string := "Assisted in analyzing customer data using SQL and Python. Created reports and dashboards to track key performance indicators. Collaborated with senior analysts on data cleaning and preprocessing tasks."

  /**
   * The first-run projects. `t1`, `t2`, `t3` are the three successive clock
   * readings taken while the list literal is evaluated; each id is its reading
   * plus the entry's offset.
   */
  function DefaultProjects(t1: int, t2: int, t3: int): (s: seq<Project>)
    ensures |s| == 3
    ensures t1 <= t2 <= t3 ==> UniqueIds(s)
  {
    [ Entity(t1 + 1, ProjectFields(SalesTitle, SalesDescription)),
      Entity(t2 + 2, ProjectFields(SegmentationTitle, SegmentationDescription)),
      Entity(t3 + 3, ProjectFields(DashboardTitle, DashboardDescription)) ]
  }

  /** The first-run experiences; `t` is the clock reading taken for the one entry. */
  function DefaultExperiences(t: int): (s: seq<Experience>)
    ensures |s| == 1 && s[0].id == t + 1
  {
    [ Entity(t + 1, ExperienceFields(InternCompany, InternRole, InternDuration, InternDescription)) ]
  }
}
