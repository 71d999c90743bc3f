/** The skills section (components/Skills.tsx): category tabs with short
    display names, the selected tab, and each skill's proficiency badge. */
module Skills {
  import opened Wrappers
  import opened Schema
  import JsObject
  import CircularProgress
  import Palette

  /** `categoryMap`: long category names to the short names on the tabs. */
  const CategoryMap: map<string, string> := map[
    "Test Automation Frameworks" := "Automation",
    "Programming & Scripting" := "Programming",
    "Cloud & DevOps" := "Cloud/DevOps",
    "AI & Emerging Tech" := "AI & ML",
    "API Testing & Performance" := "API Testing",
    "Tools & Management" := "Tools"
  ]

  /** The tab label: the short name of a known category, else the category itself. */
  function DisplayName(category: string): (r: string)
    ensures category in CategoryMap ==> r == CategoryMap[category]
    ensures category !in CategoryMap ==> r == category
  {
    JsObject.OwnOr(CategoryMap, category, category)
  }

  /** Every short name differs from every long name, so a tab shows its
      category unchanged exactly when the category is not one of the six. */
  lemma DisplayNameUnchangedIff(category: string)
    ensures DisplayName(category) == category <==> category !in CategoryMap
  {
    if category in CategoryMap {
      assert CategoryMap[category] != category;
    }
  }

  /** `categoryMap[category.category] || category.category` as written. */
  function DisplayNameAsWritten(category: string): (r: JsObject.Property<string>)
    ensures r.Inherited? <==> category in JsObject.InheritedKeys
    ensures !r.Inherited? ==> r == JsObject.Own(DisplayName(category))
  {
    JsObject.LookupOr(CategoryMap, category, category)
  }

  /** A category named "constructor" gets a function as its tab label, not its name. */
  lemma InheritedCategoryName()
    ensures DisplayNameAsWritten("constructor") == JsObject.Inherited("constructor")
    ensures DisplayName("constructor") == "constructor"
  {
  }

  /** The badge text under each skill. */
  function ProficiencyLabel(level: int): (r: string)
    ensures r == "Master" <==> level >= 90
    ensures r == "Proficient" <==> 80 <= level < 90
    ensures r == "Competent" <==> 70 <= level < 80
    ensures r == "Learning" <==> level < 70
  {
    if level >= 90 then "Master"
    else if level >= 80 then "Proficient"
    else if level >= 70 then "Competent"
    else "Learning"
  }

  /** The label that goes with each ring colour. */
  function LabelOf(c: Palette.Color): (r: string)
    ensures c == Palette.Green <==> r == "Master"
    ensures c == Palette.Purple <==> r == "Learning"
  {
    match c
    case Green => "Master"
    case Blue => "Proficient"
    case Cyan => "Competent"
    case Purple => "Learning"
  }

  /** The badge label and the ring colour use the same bands. */
  lemma LabelAgreesWithColor(level: int)
    ensures ProficiencyLabel(level) == LabelOf(CircularProgress.GetSkillColor(level))
  {
  }

  /** The four conditions that pick the badge style, from highest band to lowest. */
  function BadgeConditions(level: int): (r: seq<bool>)
    ensures |r| == 4
    ensures forall i | 0 <= i < 4 :: r[i] <==> i == 3 - CircularProgress.Rank(CircularProgress.GetSkillColor(level))
  {
    [level >= 90, level >= 80 && level < 90, level >= 70 && level < 80, level < 70]
  }

  /** Exactly one badge style applies to any level. */
  lemma ExactlyOneBadge(level: int)
    ensures exists i | 0 <= i < 4 :: BadgeConditions(level)[i]
    ensures forall i, j | 0 <= i < 4 && 0 <= j < 4 && BadgeConditions(level)[i] && BadgeConditions(level)[j] :: i == j
  {
    var k := 3 - CircularProgress.Rank(CircularProgress.GetSkillColor(level));
    assert BadgeConditions(level)[k];
  }

  /** The tab state of the section. */
  class SkillsView {
    const categories: seq<SkillCategory>
    var activeTab: int

    /** `useState(0)`: the first tab is selected. */
    constructor(categories: seq<SkillCategory>)
      ensures this.categories == categories && activeTab == 0
    {
      this.categories := categories;
      activeTab := 0;
    }

    /** A tab is highlighted iff its index is the selected one. */
    predicate IsActive(index: int)
      reads this
    {
      activeTab == index
    }

    /** The skills on the grid, `categories[activeTab].items`; with no such
        category the component fails, which the model reports as `None`. */
    function VisibleItems(): (r: Option<seq<SkillItem>>)
      reads this
      ensures r.Some? <==> 0 <= activeTab < |categories|
      ensures r.Some? ==> r.value == categories[activeTab].items
    {
      if 0 <= activeTab < |categories| then Some(categories[activeTab].items) else None
    }

    /** Clicking tab `index`, one of the rendered tabs. */
    method SelectTab(index: int)
      requires 0 <= index < |categories|
      modifies this`activeTab
      ensures activeTab == index
      ensures IsActive(index) && forall j | 0 <= j < |categories| && j != index :: !IsActive(j)
      ensures VisibleItems() == Some(categories[index].items)
    {
      activeTab := index;
    }
  }
}
