/** The filterable certifications gallery (components/CertificationsEnhanced.tsx):
    automatic categories from keywords, card colours and badges per category,
    defaulted years and links, the category tabs and the details modal. */
module CertificationsEnhanced {
  import opened Wrappers
  import opened Text
  import opened Schema
  import Palette
  import Seqs

  /** The ids of the filter tabs, in display order. */
  const CategoryIds: seq<string> := ["all", "cloud", "ai", "testing", "development", "events"]

  const CloudWords: seq<string> := ["cloud", "oci", "oracle"]
  const AiWords: seq<string> := ["ai", "generative", "agentic", "llm"]
  const TestingWords: seq<string> := ["test", "qa", "automation"]
  const DevelopmentWords: seq<string> := ["full stack", "development", "developer"]

  /** Workshops and conferences are events, whatever they are called. */
  predicate IsEvent(c: Certification) {
    c.kind == Some("workshop") || c.kind == Some("conference")
  }

  /** The text the keywords are looked for in: name and issuer, lower-cased. */
  function KeywordText(c: Certification): (r: string)
    ensures |r| == |c.name| + 1 + |c.issuer|
  {
    ToLower(c.name + " " + c.issuer)
  }

  /** `getCertCategory`: events first, then the first keyword group that
      matches, in the order cloud, ai, testing, development; else "all". */
  function CertCategory(c: Certification): (r: string)
    ensures r in CategoryIds
    ensures r == "events" <==> IsEvent(c)
    ensures r == "cloud" <==> !IsEvent(c) && ContainsAny(KeywordText(c), CloudWords)
    ensures r == "ai" <==> !IsEvent(c) && !ContainsAny(KeywordText(c), CloudWords)
                           && ContainsAny(KeywordText(c), AiWords)
    ensures r == "testing" <==> !IsEvent(c) && !ContainsAny(KeywordText(c), CloudWords + AiWords)
                                && ContainsAny(KeywordText(c), TestingWords)
    ensures r == "development" <==> !IsEvent(c) && !ContainsAny(KeywordText(c), CloudWords + AiWords + TestingWords)
                                    && ContainsAny(KeywordText(c), DevelopmentWords)
    ensures r == "all" <==> !IsEvent(c) && !ContainsAny(KeywordText(c), CloudWords + AiWords + TestingWords + DevelopmentWords)
  {
    var text := KeywordText(c);
    ContainsAnyAppend(text, CloudWords, AiWords);
    ContainsAnyAppend(text, CloudWords + AiWords, TestingWords);
    ContainsAnyAppend(text, CloudWords + AiWords + TestingWords, DevelopmentWords);
    if IsEvent(c) then "events"
    else if ContainsAny(text, CloudWords) then "cloud"
    else if ContainsAny(text, AiWords) then "ai"
    else if ContainsAny(text, TestingWords) then "testing"
    else if ContainsAny(text, DevelopmentWords) then "development"
    else "all"
  }

  /** Card colours of a category: two hex stops, the glow colour and the
      animated border preset. */
  datatype CategoryGradient = CategoryGradient(from: string, to: string, color: Palette.Color, borderGradient: string)

  /** `getCategoryGradient`, total: unknown categories, "all" among them, get
      the blue card with the blue-purple border. */
  function GetCategoryGradient(category: string): (r: CategoryGradient)
    ensures r.borderGradient in {"blue-purple", "cyan-blue", "green-emerald", "purple-pink", "orange-red"}
    ensures r.borderGradient == "orange-red" <==> category == "events"
    ensures r.borderGradient == "blue-purple" <==> category !in CategoryIds[1..]
    ensures r.borderGradient == "cyan-blue" <==> category == "cloud" || category == "development"
    ensures category == "cloud" ==> r.color == Palette.Blue && r.from == "#3B82F6" && r.to == "#60A5FA"
    ensures category == "ai" ==> r.color == Palette.Purple && r.from == "#A855F7" && r.to == "#C084FC"
    ensures category == "testing" ==> r.color == Palette.Green && r.from == "#10B981" && r.to == "#34D399"
    ensures category == "development" ==> r.color == Palette.Cyan && r.from == "#06B6D4" && r.to == "#22D3EE"
    ensures category == "events" ==> r.color == Palette.Purple && r.from == "#F59E0B" && r.to == "#EF4444"
    ensures category !in CategoryIds[1..] ==> r.color == Palette.Blue && r.from == "#3B82F6" && r.to == "#60A5FA"
  {
    match category
    case "cloud" => CategoryGradient("#3B82F6", "#60A5FA", Palette.Blue, "cyan-blue")
    case "ai" => CategoryGradient("#A855F7", "#C084FC", Palette.Purple, "purple-pink")
    case "testing" => CategoryGradient("#10B981", "#34D399", Palette.Green, "green-emerald")
    case "development" => CategoryGradient("#06B6D4", "#22D3EE", Palette.Cyan, "cyan-blue")
    case "events" => CategoryGradient("#F59E0B", "#EF4444", Palette.Purple, "orange-red")
    case _ => CategoryGradient("#3B82F6", "#60A5FA", Palette.Blue, "blue-purple")
  }

  /** `getTypeBadge(type).label`: workshops, conferences and courses by name,
      everything else (none, "certification", "bootcamp", "webinar") as a certification. */
  function TypeBadge(kind: Option<string>): (r: string)
    ensures r == "Workshop" <==> kind == Some("workshop")
    ensures r == "Conference" <==> kind == Some("conference")
    ensures r == "Course" <==> kind == Some("course")
    ensures r == "Certification" <==> kind !in {Some("workshop"), Some("conference"), Some("course")}
  {
    match kind
    case Some("workshop") => "Workshop"
    case Some("conference") => "Conference"
    case Some("course") => "Course"
    case _ => "Certification"
  }

  /** Every event gets an event badge, and no badge of an event says "Course". */
  lemma EventBadges(c: Certification)
    requires IsEvent(c)
    ensures TypeBadge(c.kind) in {"Workshop", "Conference"}
    ensures GetCategoryGradient(CertCategory(c)).borderGradient == "orange-red"
  {
  }

  /** `cert.year || (name has "2025" ? 2025 : name has "2024" ? 2024 : undefined)`.
      A year of 0 is falsy and is replaced like a missing one. */
  function EnhancedYear(year: Option<int>, name: string): (r: Option<int>)
    ensures year.Some? && year.value != 0 ==> r == year
    ensures r.None? <==> (year.None? || year.value == 0) && !Contains(name, "2025") && !Contains(name, "2024")
    ensures (year.None? || year.value == 0) && Contains(name, "2025") ==> r == Some(2025)
    ensures (year.None? || year.value == 0) && !Contains(name, "2025") && Contains(name, "2024") ==> r == Some(2024)
  {
    if year.Some? && year.value != 0 then year
    else if Contains(name, "2025") then Some(2025)
    else if Contains(name, "2024") then Some(2024)
    else None
  }

  /** Examples: "2025" is looked for first, and a zero year is replaced. */
  lemma EnhancedYearExamples()
    ensures EnhancedYear(None, "Summit 2024-2025") == Some(2025)
    ensures EnhancedYear(Some(0), "AI Week 2024") == Some(2024)
    ensures EnhancedYear(Some(2023), "AI Week 2024") == Some(2023)
  {
    ContainsInConcat("Summit 2024-", "2025", "");
    assert "Summit 2024-2025" == "Summit 2024-" + "2025" + "";
    NotContains("AI Week 2024", "2025", 2);
    ContainsInConcat("AI Week ", "2024", "");
    assert "AI Week 2024" == "AI Week " + "2024" + "";
  }

  /** The placeholder link of certificates without one. */
  const PlaceholderLink := "#verify-credential"

  /** `cert.verificationLink || "#verify-credential"`: an empty link counts as missing. */
  function EnhancedLink(link: Option<string>): (r: string)
    ensures r != ""
    ensures link.Some? && link.value != "" ==> r == link.value
    ensures link.None? || link.value == "" ==> r == PlaceholderLink
  {
    if link.Some? && link.value != "" then link.value else PlaceholderLink
  }

  /** `hasValidLink`: a non-empty link that is neither the placeholder nor "#". */
  predicate HasValidLink(link: string) {
    link != "" && link != PlaceholderLink && link != "#"
  }

  /** A certificate shows a verification link iff its own link is real. */
  lemma ValidLinkIffOwnLink(link: Option<string>)
    ensures HasValidLink(EnhancedLink(link)) <==> link.Some? && link.value !in {"", PlaceholderLink, "#"}
  {
  }

  /** A certificate with its category, defaulted year and defaulted link. */
  datatype EnhancedCert = EnhancedCert(cert: Certification, category: string)

  /** One element of `enhancedCerts`: the other fields are copied unchanged. */
  function Enhance(c: Certification): (r: EnhancedCert)
    ensures r.category == CertCategory(c) && r.category in CategoryIds
    ensures r.cert.year == EnhancedYear(c.year, c.name)
    ensures r.cert.verificationLink == Some(EnhancedLink(c.verificationLink))
    ensures r.cert.(year := c.year, verificationLink := c.verificationLink) == c
  {
    EnhancedCert(c.(year := EnhancedYear(c.year, c.name), verificationLink := Some(EnhancedLink(c.verificationLink))),
                 CertCategory(c))
  }

  /** `enhancedCerts`: every certificate enhanced, in order. */
  function EnhanceAll(certs: seq<Certification>): (r: seq<EnhancedCert>)
    ensures |r| == |certs|
    ensures forall i | 0 <= i < |certs| :: r[i] == Enhance(certs[i])
  {
    seq(|certs|, i requires 0 <= i < |certs| => Enhance(certs[i]))
  }

  /** The test `cert.category === category` of the tab filter. */
  function HasCategory(category: string): (p: EnhancedCert -> bool)
    ensures forall x :: p(x) <==> x.category == category
  {
    (x: EnhancedCert) => x.category == category
  }

  /** The certificates of one category, as `filter` keeps them. */
  function OfCategory(certs: seq<EnhancedCert>, category: string): (r: seq<EnhancedCert>)
    ensures |r| <= |certs|
    ensures forall x | x in r :: x in certs && x.category == category
    ensures forall j | 0 <= j < |certs| && certs[j].category == category :: certs[j] in r
  {
    Seqs.Filter(certs, HasCategory(category))
  }

  /** The category filter keeps a single certificate iff it has the category,
      and filters a concatenation part by part: so it keeps exactly the
      matching certificates, each as often as it occurs, in their original order. */
  lemma OfCategoryOrder(a: seq<EnhancedCert>, b: seq<EnhancedCert>, x: EnhancedCert, category: string)
    ensures OfCategory([x], category) == if x.category == category then [x] else []
    ensures OfCategory(a + b, category) == OfCategory(a, category) + OfCategory(b, category)
    ensures |OfCategory(a, category)| == Seqs.Count(a, HasCategory(category))
  {
    assert [x][1..] == [];
    Seqs.FilterAppend(a, b, HasCategory(category));
    Seqs.FilterLength(a, HasCategory(category));
  }

  /** `filteredCerts`: everything under "all", else the certificates of the active category. */
  function FilterCerts(certs: seq<EnhancedCert>, active: string): (r: seq<EnhancedCert>)
    ensures active == "all" ==> r == certs
    ensures active != "all" ==> forall x | x in r :: x in certs && x.category == active
    ensures active != "all" ==> forall j | 0 <= j < |certs| && certs[j].category == active :: certs[j] in r
  {
    if active == "all" then certs else OfCategory(certs, active)
  }

  /** Every tab, "all" included, shows a single certificate iff it belongs
      there and keeps the gallery's order across a concatenation. */
  lemma FilterCertsOrder(a: seq<EnhancedCert>, b: seq<EnhancedCert>, x: EnhancedCert, active: string)
    ensures FilterCerts([x], active) == if active == "all" || x.category == active then [x] else []
    ensures FilterCerts(a + b, active) == FilterCerts(a, active) + FilterCerts(b, active)
  {
    OfCategoryOrder(a, b, x, active);
  }

  /** The five category tabs and the certificates left uncategorised account
      for every certificate exactly once: the tabs split the gallery. */
  lemma TabsPartition(certs: seq<EnhancedCert>)
    requires forall i | 0 <= i < |certs| :: certs[i].category in CategoryIds
    ensures |FilterCerts(certs, "cloud")| + |FilterCerts(certs, "ai")| + |FilterCerts(certs, "testing")|
            + |FilterCerts(certs, "development")| + |FilterCerts(certs, "events")| + |OfCategory(certs, "all")| == |certs|
  {
    CategoryCounts(certs);
  }

  /** The six category counts add up to the number of certificates. */
  lemma {:induction false} CategoryCounts(certs: seq<EnhancedCert>)
    requires forall i | 0 <= i < |certs| :: certs[i].category in CategoryIds
    ensures |OfCategory(certs, "cloud")| + |OfCategory(certs, "ai")| + |OfCategory(certs, "testing")|
            + |OfCategory(certs, "development")| + |OfCategory(certs, "events")| + |OfCategory(certs, "all")| == |certs|
  {
    if |certs| > 0 {
      assert forall i | 0 <= i < |certs| - 1 :: certs[1..][i] == certs[i + 1];
      CategoryCounts(certs[1..]);
      CountsCons(certs);
    }
  }

  /** The first certificate adds one to the count of its category and to no other. */
  lemma CountsCons(certs: seq<EnhancedCert>)
    requires |certs| > 0 && certs[0].category in CategoryIds
    ensures |OfCategory(certs, "cloud")| + |OfCategory(certs, "ai")| + |OfCategory(certs, "testing")|
            + |OfCategory(certs, "development")| + |OfCategory(certs, "events")| + |OfCategory(certs, "all")|
            == 1 + |OfCategory(certs[1..], "cloud")| + |OfCategory(certs[1..], "ai")| + |OfCategory(certs[1..], "testing")|
            + |OfCategory(certs[1..], "development")| + |OfCategory(certs[1..], "events")| + |OfCategory(certs[1..], "all")|
  {
    OfCategoryCons(certs, "cloud");
    OfCategoryCons(certs, "ai");
    OfCategoryCons(certs, "testing");
    OfCategoryCons(certs, "development");
    OfCategoryCons(certs, "events");
    OfCategoryCons(certs, "all");
  }

  /** The first certificate counts towards its own category only. */
  lemma OfCategoryCons(certs: seq<EnhancedCert>, category: string)
    requires |certs| > 0
    ensures |OfCategory(certs, category)| == (if certs[0].category == category then 1 else 0) + |OfCategory(certs[1..], category)|
  {
  }

  /** A certificate no keyword matched appears only under the "all" tab. */
  lemma UncategorisedOnlyUnderAll(certs: seq<EnhancedCert>, active: string, i: int)
    requires 0 <= i < |certs| && certs[i].category == "all"
    ensures certs[i] in FilterCerts(certs, active) <==> active == "all"
  {
  }

  /** The issuers of the certificates, as the stats footer's `Set` collects them. */
  function Issuers(certs: seq<EnhancedCert>): (r: set<string>)
    ensures forall i | 0 <= i < |certs| :: certs[i].cert.issuer in r
    ensures forall s | s in r :: exists i | 0 <= i < |certs| :: certs[i].cert.issuer == s
  {
    if |certs| == 0 then {}
    else
      var n := |certs| - 1;
      var r := Issuers(certs[..n]) + {certs[n].cert.issuer};
      assert forall i | 0 <= i < n :: certs[..n][i] == certs[i];
      r
  }

  /** The "Organizations" figure: at most one per certificate, and at least one
      when there is any certificate. */
  lemma {:induction false} IssuerCountBounds(certs: seq<EnhancedCert>)
    ensures |Issuers(certs)| <= |certs|
    ensures |certs| > 0 ==> |Issuers(certs)| >= 1
  {
    if |certs| > 0 {
      var n := |certs| - 1;
      IssuerCountBounds(certs[..n]);
      assert certs[n].cert.issuer in Issuers(certs);
    }
  }

  /** The component's state: the active tab, the hovered card, and the modal. */
  class CertificationsView {
    const certs: seq<EnhancedCert>
    var activeCategory: string
    var hoveredCard: Option<int>
    var selectedCert: Option<EnhancedCert>
    var isModalOpen: bool

    ghost predicate Valid()
      reads this
    {
      activeCategory in CategoryIds && (isModalOpen ==> selectedCert.Some?)
    }

    /** The initial state: every certificate shown, nothing hovered or open. */
    constructor(certifications: seq<Certification>)
      ensures Valid()
      ensures certs == EnhanceAll(certifications)
      ensures activeCategory == "all" && hoveredCard == None && selectedCert == None && !isModalOpen
      ensures FilteredCerts() == certs
    {
      certs := EnhanceAll(certifications);
      activeCategory := "all";
      hoveredCard := None;
      selectedCert := None;
      isModalOpen := false;
    }

    /** The cards on the grid: the active tab's filter of the gallery. */
    function FilteredCerts(): (r: seq<EnhancedCert>)
      reads this
      ensures |r| <= |certs|
      ensures forall x | x in r :: x in certs
      ensures r == FilterCerts(certs, activeCategory)
    {
      FilterCerts(certs, activeCategory)
    }

    /** "No certifications in this category yet" is shown iff the grid is empty. */
    predicate ShowsEmptyState()
      reads this
    {
      |FilteredCerts()| == 0
    }

    /** A tab click. */
    method SelectCategory(id: string)
      requires Valid() && id in CategoryIds
      modifies this`activeCategory
      ensures Valid() && activeCategory == id
      ensures FilteredCerts() == FilterCerts(certs, id)
    {
      activeCategory := id;
    }

    /** `onHoverStart` of card `index`: that card, and only it, is animated. */
    method HoverStart(index: int)
      requires Valid()
      modifies this`hoveredCard
      ensures Valid() && hoveredCard == Some(index)
      ensures forall j :: IsHovered(j) <==> j == index
    {
      hoveredCard := Some(index);
    }

    /** `onHoverEnd`: no card is animated. */
    method HoverEnd()
      requires Valid()
      modifies this`hoveredCard
      ensures Valid() && hoveredCard == None
      ensures forall j :: !IsHovered(j)
    {
      hoveredCard := None;
    }

    predicate IsHovered(index: int)
      reads this
    {
      hoveredCard == Some(index)
    }

    /** `openModal(cert)`. */
    method OpenModal(c: EnhancedCert)
      requires Valid()
      modifies this`selectedCert, this`isModalOpen
      ensures Valid() && selectedCert == Some(c) && isModalOpen
    {
      selectedCert := Some(c);
      isModalOpen := true;
    }

    /** `closeModal()`: the modal closes at once and renders nothing; the
        certificate stays selected until `ClearSelection` runs. */
    method CloseModal()
      requires Valid()
      modifies this`isModalOpen
      ensures Valid() && !isModalOpen && selectedCert == old(selectedCert)
    {
      isModalOpen := false;
    }

    /** The modal is on screen: `selectedCert && <CertificationModal isOpen={isModalOpen} />`. */
    predicate ModalShown()
      reads this
    {
      selectedCert.Some? && isModalOpen
    }

    /** The delayed `setSelectedCert(null)` that `closeModal` schedules, as
        written: it clears the selection even if the modal was opened again
        in the meantime. */
    method ClearSelectionAsWritten()
      requires Valid()
      modifies this`selectedCert
      ensures selectedCert == None
      ensures Valid() <==> !isModalOpen
    {
      selectedCert := None;
    }

    /** The delayed clear as intended: a selection made by a later
        `openModal` survives the timer. */
    method ClearSelection()
      requires Valid()
      modifies this`selectedCert
      ensures Valid()
      ensures selectedCert == if isModalOpen then old(selectedCert) else None
    {
      if !isModalOpen {
        selectedCert := None;
      }
    }
  }

  /** Open, close and reopen within the 300 ms delay, then let the first
      timer fire: with the clear as written the modal is open but nothing is
      shown; with the guarded clear the reopened certificate stays shown. */
  method ReopenWithinDelay(certifications: seq<Certification>, c: EnhancedCert)
    returns (shownAsWritten: bool, shownGuarded: bool)
    ensures !shownAsWritten && shownGuarded
  {
    var v := new CertificationsView(certifications);
    v.OpenModal(c);
    v.CloseModal();
    v.OpenModal(c);
    v.ClearSelectionAsWritten();
    shownAsWritten := v.ModalShown();
    var w := new CertificationsView(certifications);
    w.OpenModal(c);
    w.CloseModal();
    w.OpenModal(c);
    w.ClearSelection();
    shownGuarded := w.ModalShown();
  }
}
