/** Icon and gradient presets (data/config.ts): string names from the content
    file resolved to icon components and Tailwind gradient classes, with a
    fallback for unknown names. */
module Config {
  import Schema
  import JsObject

  /** The lucide-react icon components the site uses. */
  datatype Icon = Mail | Linkedin | Github | FileText | Twitter | Phone

  /** `ICON_MAP`: icon name to component. */
  const IconMap: map<string, Icon> := map[
    "Mail" := Mail, "Linkedin" := Linkedin, "Github" := Github,
    "FileText" := FileText, "Twitter" := Twitter, "Phone" := Phone
  ]

  /** A pair of Tailwind classes for the two ends of a gradient. */
  datatype GradientClasses = GradientClasses(from: string, to: string)

  /** `GRADIENT_MAP`: preset name to gradient classes. */
  const GradientMap: map<string, GradientClasses> := map[
    "blue" := GradientClasses("from-blue-500", "to-cyan-400"),
    "indigo" := GradientClasses("from-indigo-500", "to-purple-400"),
    "purple" := GradientClasses("from-purple-500", "to-pink-400"),
    "cyan" := GradientClasses("from-cyan-500", "to-blue-400"),
    "green" := GradientClasses("from-green-500", "to-emerald-400")
  ]

  /** The name under which each icon is registered. */
  function IconName(i: Icon): (r: string)
    ensures r in IconMap && IconMap[r] == i
  {
    match i
    case Mail => "Mail"
    case Linkedin => "Linkedin"
    case Github => "Github"
    case FileText => "FileText"
    case Twitter => "Twitter"
    case Phone => "Phone"
  }

  /** The icon map has exactly the names the schema accepts for contact items. */
  lemma IconMapCoversSchema()
    ensures IconMap.Keys == Schema.ContactIconNames
  {
  }

  /** The gradient map has exactly the names the schema accepts for projects. */
  lemma GradientMapCoversSchema()
    ensures GradientMap.Keys == Schema.ProjectGradients
  {
  }

  /** `getIcon`: the registered icon, or `Mail` for an unknown name. Only the
      name "Mail" and unknown names give `Mail`. */
  function GetIcon(iconName: string): (r: Icon)
    ensures iconName in Schema.ContactIconNames ==> IconName(r) == iconName
    ensures r == Mail <==> iconName == "Mail" || iconName !in Schema.ContactIconNames
  {
    JsObject.OwnOr(IconMap, iconName, Mail)
  }

  /** Naming an icon and looking the name up gives the icon back. */
  lemma GetIconName(i: Icon)
    ensures GetIcon(IconName(i)) == i
  {
  }

  /** `getGradient`: the preset's classes, or the blue preset for an unknown name. */
  function GetGradient(gradientName: string): (r: GradientClasses)
    ensures gradientName !in Schema.ProjectGradients ==> r == GradientMap["blue"]
    ensures gradientName in Schema.ProjectGradients ==> r == GradientMap[gradientName]
  {
    JsObject.OwnOr(GradientMap, gradientName, GradientMap["blue"])
  }

  /** Distinct presets give distinct gradients, so a preset name can be read
      back from its classes. */
  lemma GetGradientInjective(a: string, b: string)
    requires a in Schema.ProjectGradients && b in Schema.ProjectGradients
    ensures GetGradient(a) == GetGradient(b) <==> a == b
  {
  }

  // The lookups as written: `ICON_MAP[iconName]` and `GRADIENT_MAP[gradientName]`
  // followed by a falsiness test, which inherited members of the object
  // literal pass.

  /** `getIcon` as written. */
  function GetIconAsWritten(iconName: string): (r: JsObject.Property<Icon>)
    ensures r.Inherited? <==> iconName in JsObject.InheritedKeys
    ensures !r.Inherited? ==> r == JsObject.Own(GetIcon(iconName))
  {
    JsObject.LookupOr(IconMap, iconName, Mail)
  }

  /** `getGradient` as written. */
  function GetGradientAsWritten(gradientName: string): (r: JsObject.Property<GradientClasses>)
    ensures r.Inherited? <==> gradientName in JsObject.InheritedKeys
    ensures !r.Inherited? ==> r == JsObject.Own(GetGradient(gradientName))
  {
    JsObject.LookupOr(GradientMap, gradientName, GradientMap["blue"])
  }

  /** The name "toString" skips the fallback: `getIcon` returns
      `Object.prototype.toString` instead of `Mail`, and `getGradient` returns
      a function with no `from`/`to` classes instead of the blue preset. */
  lemma InheritedNameSkipsFallback()
    ensures GetIconAsWritten("toString") == JsObject.Inherited("toString")
    ensures GetIcon("toString") == Mail
    ensures GetGradientAsWritten("constructor") == JsObject.Inherited("constructor")
    ensures GetGradient("constructor") == GradientMap["blue"]
  {
  }

  /** Every name the schema accepts resolves the same way in both versions,
      so content that passed validation never reaches the difference. */
  lemma AsWrittenAgreesOnSchemaNames(iconName: string, gradientName: string)
    ensures iconName in Schema.ContactIconNames ==> GetIconAsWritten(iconName) == JsObject.Own(GetIcon(iconName))
    ensures gradientName in Schema.ProjectGradients ==> GetGradientAsWritten(gradientName) == JsObject.Own(GetGradient(gradientName))
  {
  }
}
