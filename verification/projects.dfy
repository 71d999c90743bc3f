/** The project grid (components/Projects.tsx): one card per project, the
    first one featured, with its gradient, glow colour and headline metric.
    The card mapping is shared with the organization-grouped grid. */
module Projects {
  import opened Wrappers
  import opened Schema
  import opened Palette
  import Config
  import Metric

  /** The glow colour of a project card: the gradient's own colour, with
      every other name ("indigo" among the valid ones) glowing blue. */
  function GlowColor(gradient: string): (r: Color)
    ensures r == Purple <==> gradient == "purple"
    ensures r == Cyan <==> gradient == "cyan"
    ensures r == Green <==> gradient == "green"
    ensures r == Blue <==> gradient !in {"purple", "cyan", "green"}
  {
    if gradient == "blue" then Blue
    else if gradient == "purple" then Purple
    else if gradient == "cyan" then Cyan
    else if gradient == "green" then Green
    else Blue
  }

  /** Of the five valid gradients only "indigo" changes colour. */
  lemma GlowColorOfValidGradients()
    ensures GlowColor("blue") == Blue && GlowColor("indigo") == Blue
    ensures forall g | g in ProjectGradients :: g != "indigo" ==> ColorName(GlowColor(g)) == g
  {
  }

  /** The colour's name as the components spell it. */
  function ColorName(c: Color): (r: string)
    ensures r in ProjectGradients
  {
    match c
    case Blue => "blue"
    case Purple => "purple"
    case Cyan => "cyan"
    case Green => "green"
  }

  /** What a card shows besides the project's own text. */
  datatype ProjectCard = ProjectCard(
    project: Project, featured: bool, gradient: Config.GradientClasses,
    glow: Color, metric: Option<string>)

  /** The card of one project. */
  function Card(p: Project, featured: bool): (r: ProjectCard)
    ensures r.project == p && r.featured == featured
    ensures r.gradient == Config.GetGradient(p.gradient) && r.glow == GlowColor(p.gradient)
    ensures r.metric.Some? ==> |r.metric.value| >= 2 && r.metric.value[|r.metric.value| - 1] == '%'
    ensures r.metric == Metric.ExtractMetric(p.impact)
  {
    ProjectCard(p, featured, Config.GetGradient(p.gradient), GlowColor(p.gradient), Metric.ExtractMetric(p.impact))
  }

  /** The cards of a grid in project order; when `featureFirst` holds, the
      first card is the featured one. */
  function Cards(projects: seq<Project>, featureFirst: bool): (r: seq<ProjectCard>)
    ensures |r| == |projects|
    ensures forall i | 0 <= i < |r| :: r[i] == Card(projects[i], featureFirst && i == 0)
  {
    seq(|projects|, i requires 0 <= i < |projects| => Card(projects[i], featureFirst && i == 0))
  }

  /** Featuring the first card features exactly one card of a non-empty grid. */
  lemma OneFeatured(projects: seq<Project>)
    requires |projects| > 0
    ensures Cards(projects, true)[0].featured
    ensures forall i | 0 < i < |projects| :: !Cards(projects, true)[i].featured
  {
  }

  /** What the component renders. */
  datatype ProjectsView = EmptyState | Grid(cards: seq<ProjectCard>)

  /** `!projects || projects.length === 0`. */
  predicate ShowsEmptyState(projects: Option<seq<Project>>) {
    projects.None? || |projects.value| == 0
  }

  /** The empty-state message, or the grid with the first card featured. */
  function View(projects: Option<seq<Project>>): (r: ProjectsView)
    ensures r.EmptyState? <==> ShowsEmptyState(projects)
    ensures r.Grid? ==> |r.cards| == |projects.value| >= 1 && r.cards[0].featured
    ensures r.Grid? ==> forall i | 0 <= i < |r.cards| :: r.cards[i] == Card(projects.value[i], i == 0)
  {
    if ShowsEmptyState(projects) then EmptyState else Grid(Cards(projects.value, true))
  }

  /** A valid section that only has organizations shows the empty state here. */
  lemma OrganizationsOnlyIsEmpty(s: ProjectsSection)
    requires ValidProjectsSection(s) && s.projects.None?
    ensures s.organizations.Some?
    ensures View(s.projects) == EmptyState
  {
  }
}
