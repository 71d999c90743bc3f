/** The content document and the validity rules the schema enforces on it.
    The datatypes follow the TypeScript interfaces of data/types.ts; fields the
    schema leaves free are plain strings, and the closed enumerations are
    strings checked against the sets below, as the raw document holds them. */
module Schema {
  import opened Wrappers

  datatype PersonalInfo = PersonalInfo(name: string, email: string, phone: Option<string>)

  datatype HeroSection = HeroSection(greeting: string, name: string, roles: seq<string>, backgroundImage: Option<string>)

  /** `caption` is the `label` field (`label` is a Dafny keyword). */
  datatype AboutDetail = AboutDetail(caption: string, value: string)

  datatype JourneyMilestone = JourneyMilestone(
    year: string, phase: string, title: string, skills: seq<string>,
    milestone: string, color: string, iconName: string)

  datatype AboutSection = AboutSection(
    heading: string, subheading: string, bio: string,
    details: seq<AboutDetail>, journeyTimeline: seq<JourneyMilestone>)

  datatype SkillItem = SkillItem(name: string, level: int)

  datatype SkillCategory = SkillCategory(category: string, items: seq<SkillItem>)

  datatype SkillsSection = SkillsSection(heading: string, subheading: string, categories: seq<SkillCategory>)

  datatype Job = Job(role: string, company: string, period: string, location: string, achievements: seq<string>)

  datatype ExperienceSection = ExperienceSection(heading: string, subheading: string, jobs: seq<Job>)

  datatype Project = Project(
    title: string, tech: seq<string>, problem: string, solution: string,
    impact: string, gradient: string)

  datatype Organization = Organization(
    name: string, period: string, role: string, totalProjects: int,
    description: string, gradient: string, projects: seq<Project>)

  datatype ProjectsSection = ProjectsSection(
    heading: string, subheading: string,
    projects: Option<seq<Project>>, organizations: Option<seq<Organization>>)

  /** `kind` is the optional `type` field of a certification. */
  datatype Certification = Certification(
    name: string, issuer: string, icon: string, kind: Option<string>,
    year: Option<int>, month: Option<string>, verificationLink: Option<string>,
    certImage: Option<string>, description: Option<string>, skills: Option<seq<string>>)

  datatype CertificationsSection = CertificationsSection(
    heading: string, subheading: string, certifications: seq<Certification>)

  /** `caption` is the `label` field. */
  datatype ContactItem = ContactItem(caption: string, value: string, href: string, iconName: string, external: Option<bool>)

  datatype ContactSection = ContactSection(heading: string, subheading: string, introText: string, items: seq<ContactItem>)

  datatype PortfolioContent = PortfolioContent(
    personal: PersonalInfo, hero: HeroSection, about: AboutSection,
    skills: SkillsSection, experience: ExperienceSection, projects: ProjectsSection,
    certifications: CertificationsSection, contact: ContactSection)

  // The closed enumerations of the schema.
  const ProjectGradients: set<string> := {"blue", "indigo", "purple", "cyan", "green"}
  const OrganizationGradients: set<string> := {"blue-purple", "indigo-blue", "purple-pink", "cyan-teal", "green-emerald"}
  const CertificationTypes: set<string> := {"certification", "workshop", "conference", "course", "bootcamp", "webinar"}
  const ContactIconNames: set<string> := {"Mail", "Linkedin", "Github", "FileText", "Twitter", "Phone"}

  /** A non-empty name and an e-mail address; `isEmail` stands for zod's e-mail check. */
  predicate ValidPersonalInfo(p: PersonalInfo, isEmail: string -> bool) {
    |p.name| >= 1 && isEmail(p.email)
  }

  predicate ValidHeroSection(h: HeroSection) {
    |h.name| >= 1 && |h.roles| >= 1
  }

  /** Both bounds of the level are inclusive. */
  predicate ValidSkillItem(s: SkillItem) {
    0 <= s.level <= 100
  }

  predicate ValidSkillsSection(s: SkillsSection) {
    forall i, j | 0 <= i < |s.categories| && 0 <= j < |s.categories[i].items| :: ValidSkillItem(s.categories[i].items[j])
  }

  predicate ValidProject(p: Project) {
    p.gradient in ProjectGradients
  }

  predicate ValidOrganization(o: Organization) {
    o.gradient in OrganizationGradients && forall j | 0 <= j < |o.projects| :: ValidProject(o.projects[j])
  }

  /** The object's own fields, before the cross-field refinement. */
  predicate ValidProjectsFields(s: ProjectsSection) {
    && (s.projects.Some? ==> forall j | 0 <= j < |s.projects.value| :: ValidProject(s.projects.value[j]))
    && (s.organizations.Some? ==> forall j | 0 <= j < |s.organizations.value| :: ValidOrganization(s.organizations.value[j]))
  }

  /** The refinement: `projects` or `organizations` is defined (an empty list counts). */
  predicate ProjectsRefinement(s: ProjectsSection) {
    s.projects.Some? || s.organizations.Some?
  }

  predicate ValidProjectsSection(s: ProjectsSection) {
    ValidProjectsFields(s) && ProjectsRefinement(s)
  }

  /** Every field after `icon` is optional; `type`, when present, is one of six. */
  predicate ValidCertification(c: Certification) {
    c.kind.Some? ==> c.kind.value in CertificationTypes
  }

  predicate ValidCertificationsSection(s: CertificationsSection) {
    forall j | 0 <= j < |s.certifications| :: ValidCertification(s.certifications[j])
  }

  predicate ValidContactItem(i: ContactItem) {
    i.iconName in ContactIconNames
  }

  predicate ValidContactSection(s: ContactSection) {
    forall j | 0 <= j < |s.items| :: ValidContactItem(s.items[j])
  }

  /** The about and experience sections constrain nothing beyond the types of their fields. */
  predicate ValidPortfolio(d: PortfolioContent, isEmail: string -> bool) {
    && ValidPersonalInfo(d.personal, isEmail)
    && ValidHeroSection(d.hero)
    && ValidSkillsSection(d.skills)
    && ValidProjectsSection(d.projects)
    && ValidCertificationsSection(d.certifications)
    && ValidContactSection(d.contact)
  }

  /** The top-level keys of the document that carry a schema of their own;
      `Path` is the key as zod reports it in an issue's path. */
  datatype SectionKey = PersonalKey | HeroKey | SkillsKey | ProjectsKey | CertificationsKey | ContactKey
  {
    function Path(): string {
      match this
      case PersonalKey => "personal"
      case HeroKey => "hero"
      case SkillsKey => "skills"
      case ProjectsKey => "projects"
      case CertificationsKey => "certifications"
      case ContactKey => "contact"
    }
  }

  /** The sections that fail their schema, in the schema's order. */
  function InvalidSections(d: PortfolioContent, isEmail: string -> bool): (r: seq<SectionKey>)
    ensures r == [] <==> ValidPortfolio(d, isEmail)
    ensures |r| <= 6
    ensures PersonalKey in r <==> !ValidPersonalInfo(d.personal, isEmail)
    ensures HeroKey in r <==> !ValidHeroSection(d.hero)
    ensures SkillsKey in r <==> !ValidSkillsSection(d.skills)
    ensures ProjectsKey in r <==> !ValidProjectsSection(d.projects)
    ensures CertificationsKey in r <==> !ValidCertificationsSection(d.certifications)
    ensures ContactKey in r <==> !ValidContactSection(d.contact)
  {
    IssueList(ValidPersonalInfo(d.personal, isEmail), ValidHeroSection(d.hero), ValidSkillsSection(d.skills),
              ValidProjectsSection(d.projects), ValidCertificationsSection(d.certifications),
              ValidContactSection(d.contact))
  }

  /** The keys of the failing sections, given each section's verdict. */
  function IssueList(personal: bool, hero: bool, skills: bool, projects: bool, certifications: bool, contact: bool)
    : (r: seq<SectionKey>)
    ensures r == [] <==> personal && hero && skills && projects && certifications && contact
    ensures |r| <= 6
    ensures PersonalKey in r <==> !personal
    ensures HeroKey in r <==> !hero
    ensures SkillsKey in r <==> !skills
    ensures ProjectsKey in r <==> !projects
    ensures CertificationsKey in r <==> !certifications
    ensures ContactKey in r <==> !contact
  {
    Issue(personal, PersonalKey) + Issue(hero, HeroKey) + Issue(skills, SkillsKey)
    + Issue(projects, ProjectsKey) + Issue(certifications, CertificationsKey) + Issue(contact, ContactKey)
  }

  /** One section's entry in the issue list: its key when it fails. */
  function Issue(ok: bool, key: SectionKey): (r: seq<SectionKey>)
    ensures key in r <==> !ok
    ensures forall x | x in r :: x == key
    ensures |r| == if ok then 0 else 1
  {
    if ok then [] else [key]
  }

  /** `portfolioSchema.parse`: the document itself when it is valid (zod gives
      back an equal value), otherwise the list of failing sections. */
  function Parse(raw: PortfolioContent, isEmail: string -> bool): (r: Result<PortfolioContent, seq<SectionKey>>)
    ensures r.Success? <==> ValidPortfolio(raw, isEmail)
    ensures r.Success? ==> r.value == raw
    ensures r.Failure? ==> |r.error| > 0 && r.error == InvalidSections(raw, isEmail)
  {
    var issues := InvalidSections(raw, isEmail);
    if issues == [] then Success(raw) else Failure(issues)
  }

  /** The personal section needs a name and an e-mail address that passes
      the check, the phone being optional; the hero section needs a name and
      at least one role. */
  lemma RequiredFields(name: string, email: string, phone: Option<string>, isEmail: string -> bool,
                       greeting: string, roles: seq<string>)
    ensures ValidPersonalInfo(PersonalInfo(name, email, phone), isEmail) <==> name != "" && isEmail(email)
    ensures !ValidHeroSection(HeroSection(greeting, name, [], None))
    ensures ValidHeroSection(HeroSection(greeting, name, roles, None)) <==> name != "" && roles != []
  {
  }

  /** Level 0 and level 100 pass, 101 and -1 fail. */
  lemma SkillLevelBoundaries(name: string)
    ensures ValidSkillItem(SkillItem(name, 0)) && ValidSkillItem(SkillItem(name, 100))
    ensures !ValidSkillItem(SkillItem(name, 101)) && !ValidSkillItem(SkillItem(name, -1))
  {
  }

  /** A projects section is valid with only `organizations`, with only
      `projects`, with both, and with an empty list; never with neither. */
  lemma ProjectsRefinementCases(h: string, sh: string, orgs: seq<Organization>, ps: seq<Project>)
    requires forall j | 0 <= j < |orgs| :: ValidOrganization(orgs[j])
    requires forall j | 0 <= j < |ps| :: ValidProject(ps[j])
    ensures ValidProjectsSection(ProjectsSection(h, sh, None, Some(orgs)))
    ensures ValidProjectsSection(ProjectsSection(h, sh, Some(ps), None))
    ensures ValidProjectsSection(ProjectsSection(h, sh, Some(ps), Some(orgs)))
    ensures ValidProjectsSection(ProjectsSection(h, sh, Some([]), None))
    ensures !ValidProjectsSection(ProjectsSection(h, sh, None, None))
  {
  }

  /** A certification with every optional field absent is valid; a present
      `type` outside the six values is not. */
  lemma CertificationOptionalFields(name: string, issuer: string, icon: string)
    ensures ValidCertification(Certification(name, issuer, icon, None, None, None, None, None, None, None))
    ensures !ValidCertification(Certification(name, issuer, icon, Some("seminar"), None, None, None, None, None, None))
  {
  }

  /** "Slack" is not a contact icon name; "Github" is. */
  lemma ContactIconNameExamples(caption: string, value: string, href: string)
    ensures !ValidContactItem(ContactItem(caption, value, href, "Slack", None))
    ensures ValidContactItem(ContactItem(caption, value, href, "Github", None))
  {
  }
}
