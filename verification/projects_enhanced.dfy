/** The organization-grouped project grid (components/ProjectsEnhanced.tsx):
    organizations with their colours, project count and expand toggle, each
    holding a project grid, and the flat legacy grid when there are none. */
module ProjectsEnhanced {
  import opened Wrappers
  import opened Schema
  import opened Palette
  import JsObject
  import Projects

  /** The header colours of an organization card. */
  datatype OrgGradient = OrgGradient(from: string, to: string, color: Color)

  /** `orgGradientMap`. */
  const OrgGradientMap: map<string, OrgGradient> := map[
    "blue-purple" := OrgGradient("#3B82F6", "#A78BFA", Blue),
    "indigo-blue" := OrgGradient("#6366F1", "#60A5FA", Blue),
    "purple-pink" := OrgGradient("#A855F7", "#EC4899", Purple),
    "cyan-teal" := OrgGradient("#06B6D4", "#14B8A6", Cyan),
    "green-emerald" := OrgGradient("#10B981", "#34D399", Green)
  ]

  /** The map has exactly the gradients the schema accepts for organizations. */
  lemma OrgGradientMapCoversSchema()
    ensures OrgGradientMap.Keys == OrganizationGradients
  {
  }

  /** The organization's colours: its gradient's entry, else "blue-purple". */
  function OrgColors(gradient: string): (r: OrgGradient)
    ensures gradient in OrganizationGradients ==> r == OrgGradientMap[gradient]
    ensures gradient !in OrganizationGradients ==> r == OrgGradientMap["blue-purple"]
    ensures r.color == Purple <==> gradient == "purple-pink"
  {
    JsObject.OwnOr(OrgGradientMap, gradient, OrgGradientMap["blue-purple"])
  }

  /** `orgGradientMap[organization.gradient] || orgGradientMap["blue-purple"]` as written. */
  function OrgColorsAsWritten(gradient: string): (r: JsObject.Property<OrgGradient>)
    ensures r.Inherited? <==> gradient in JsObject.InheritedKeys
    ensures !r.Inherited? ==> r == JsObject.Own(OrgColors(gradient))
  {
    JsObject.LookupOr(OrgGradientMap, gradient, OrgGradientMap["blue-purple"])
  }

  /** An organization whose gradient is "valueOf" gets a function for its
      colours (no `color`, so the glow card gets undefined) instead of the
      blue-purple fallback. */
  lemma InheritedGradientSkipsFallback()
    ensures OrgColorsAsWritten("valueOf") == JsObject.Inherited("valueOf")
    ensures OrgColors("valueOf") == OrgGradientMap["blue-purple"]
  {
  }

  /** The unit after the project count. */
  function ProjectsLabel(totalProjects: int): (r: string)
    ensures r == "Project" <==> totalProjects == 1
    ensures r != "Project" ==> r == "Projects"
  {
    if totalProjects == 1 then "Project" else "Projects"
  }

  /** Inside an organization the first project is featured only when there
      is more than one. */
  predicate FeaturedInOrg(projectIndex: int, count: int) {
    projectIndex == 0 && count > 1
  }

  /** The cards of an expanded organization. */
  function OrgCards(o: Organization): (r: seq<Projects.ProjectCard>)
    ensures |r| == |o.projects|
    ensures forall i | 0 <= i < |r| :: r[i].project == o.projects[i] && (r[i].featured <==> FeaturedInOrg(i, |o.projects|))
  {
    Projects.Cards(o.projects, |o.projects| > 1)
  }

  /** A lone project is never featured; otherwise exactly the first is. */
  lemma OrgFeatured(o: Organization)
    ensures |o.projects| == 1 ==> !OrgCards(o)[0].featured
    ensures |o.projects| > 1 ==> forall i | 0 <= i < |o.projects| :: OrgCards(o)[i].featured <==> i == 0
  {
  }

  /** The two layouts of the section. */
  datatype Layout = Organizations(orgs: seq<Organization>) | Legacy(projects: Option<seq<Project>>)

  /** `hasOrganizations ? ... : legacyProjects?.map(...)`. */
  function ChooseLayout(s: ProjectsSection): (r: Layout)
    ensures r.Organizations? <==> s.organizations.Some? && |s.organizations.value| > 0
    ensures r.Organizations? ==> r.orgs == s.organizations.value
    ensures r.Legacy? ==> r.projects == s.projects
  {
    if s.organizations.Some? && |s.organizations.value| > 0 then Organizations(s.organizations.value)
    else Legacy(s.projects)
  }

  /** The cards of the legacy grid: none when `projects` is absent, the
      first featured otherwise. */
  function LegacyCards(projects: Option<seq<Project>>): (r: seq<Projects.ProjectCard>)
    ensures projects.None? ==> r == []
    ensures projects.Some? ==> |r| == |projects.value| && (|r| > 0 ==> r[0].featured)
    ensures projects.Some? ==> forall i | 0 <= i < |r| :: r[i] == Projects.Card(projects.value[i], i == 0)
  {
    if projects.None? then [] else Projects.Cards(projects.value, true)
  }

  /** The schema accepts a section whose organization list is empty and which
      has no projects, and the page then shows no project at all. */
  lemma EmptyOrganizationsShowNothing(heading: string, subheading: string)
    ensures ValidProjectsSection(ProjectsSection(heading, subheading, None, Some([])))
    ensures ChooseLayout(ProjectsSection(heading, subheading, None, Some([]))) == Legacy(None)
    ensures LegacyCards(None) == []
  {
  }

  /** The expand state of one organization. */
  class OrganizationSection {
    const organization: Organization
    var isExpanded: bool

    /** `useState(true)`: organizations start expanded. */
    constructor(organization: Organization)
      ensures this.organization == organization && isExpanded
      ensures VisibleCards() == OrgCards(organization)
    {
      this.organization := organization;
      isExpanded := true;
    }

    /** The header colours. */
    function Colors(): (r: OrgGradient)
      reads this
      ensures r in OrgGradientMap.Values
    {
      OrgColors(organization.gradient)
    }

    /** The project grid under the header: all cards, or none when collapsed. */
    function VisibleCards(): (r: seq<Projects.ProjectCard>)
      reads this
      ensures isExpanded ==> r == OrgCards(organization)
      ensures !isExpanded ==> r == []
    {
      if isExpanded then OrgCards(organization) else []
    }

    /** The Collapse/Expand button. */
    method Toggle()
      modifies this`isExpanded
      ensures isExpanded == !old(isExpanded)
    {
      isExpanded := !isExpanded;
    }
  }
}
