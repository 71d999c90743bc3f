# Portfolio site core, modelled in Dafny

This project models the logic of a single-page portfolio site written in
TypeScript and React. The site is almost all presentation. Under the
presentation sit small pieces of logic, and these are what is modelled:

- the content schema with its validity rules;
- the memoising loader that validates the content document once;
- the icon and gradient lookup tables;
- the keyword classifiers for certificates;
- the skill-level bands;
- the project cards and layouts;
- the string functions `renderBold` (split on `**…**`) and `extractMetric` (first `digits%`);
- the small state machines of the components: the typewriter, the expanded
  jobs, the certificate tabs and modal, the sidebar's active section and menus.

Each core file has a module of its own:

| module | file |
|---|---|
| `Schema` | `data/schema.ts` |
| `ContentLoader` | `lib/content-loader.ts` (`getPortfolioContent` and the eight accessors) |
| `Bold` | `renderBold`, shared by `lib/content-loader.ts` and `components/Experience.tsx` |
| `Metric` | `extractMetric`, shared by the experience and both project components |
| `Config` | `data/config.ts` |
| `CertificationsEnhanced` | `components/CertificationsEnhanced.tsx` |
| `Certifications` | `components/Certifications.tsx` |
| `Skills` | `components/Skills.tsx` |
| `CircularProgress` | `components/ui/CircularProgress.tsx` |
| `Experience` | `components/Experience.tsx` |
| `Hero` | `components/Hero.tsx` |
| `Projects` | `components/Projects.tsx`, and the card mapping and glow colour shared with the grouped grid |
| `ProjectsEnhanced` | `components/ProjectsEnhanced.tsx` |
| `Contact` | `components/Contact.tsx` |
| `Sidebar` | `components/Sidebar.tsx` |

Shared helper modules:

- `Wrappers`: `Option` and `Result`.
- `Text`: `\d`, line terminators, `toLowerCase` and `includes`.
- `Seqs`: `find` and `filter`.
- `JsObject`: property lookup on an object literal, including what
  `Object.prototype` supplies.
- `Palette`: the four accent colours the glow cards take.

Pure code is modelled as functions, with lemmas about them. State that the
source updates in place is modelled as classes whose methods are proved
against those functions:

- `ContentLoader.Loader`: the module-level cache.
- `Hero.Typewriter`: three `useState` fields stepped by a timer.
- `Experience.ExperienceView`: the expanded-jobs set.
- `Skills.SkillsView`: the active tab.
- `CertificationsEnhanced.CertificationsView`: the active category, hovered card and modal.
- `ProjectsEnhanced.OrganizationSection`: the expand flag.
- `Sidebar.SidebarView`: the active section, mobile menu and collapsed flag.

The sidebar's scroll handler is a method with a loop. Its measurements are passed in as a sequence of optional tops.

The zod e-mail check is a parameter `isEmail` of the validity predicates.
The bundled JSON document is a parameter of the loader.

The JavaScript semantics the model depends on:

- **`String.prototype.split` with a capturing global regular expression.**
  This is the loop of section 22.2.6.14 of ECMA-262:
  - the search advances one position after each failed match;
  - each match contributes the piece before it, then its capture.
- **`.` does not match line terminators.** Section 22.2.2.9 of ECMA-262, so
  a bold capture never spans lines.
- **Property lookup on an object literal.** It falls back to the members that
  `Object.prototype` provides (section 10.1.8.1 of ECMA-262).
- **Truthiness.** `cert.year || …` treats a year of 0 as missing, and
  `link || "#verify-credential"` treats `""` as missing.
- **`substring` clamps its end index.**

## Model

| member | source | states |
|---|---|---|
| Schema.RequiredFields | data/schema.ts:4-15 | Personal info is valid iff the name is non-empty and the e-mail check passes, whatever the phone is. The hero section is valid iff the name is non-empty and there is at least one role; an empty role list is rejected. |
| Schema.SkillLevelBoundaries | data/schema.ts:40-43 | Both bounds of the skill level are inclusive: 0 and 100 pass, -1 and 101 fail. |
| Schema.ProjectsRefinementCases | data/schema.ts:89-99 | A projects section is valid with only organizations, with only projects, with both, and with an empty list; never with neither. |
| Schema.CertificationOptionalFields | data/schema.ts:101-112 | A certification with every optional field absent is valid; a present type outside the six values is not. |
| Schema.ContactIconNameExamples | data/schema.ts:124 | The contact icon name is a closed enum: "Github" passes, "Slack" fails. |
| Schema.InvalidSections | data/schema.ts:135-144 | The list of failing sections is empty iff every section is valid; it names only sections of the document, and names each of the six sections iff that section fails its schema. |
| Schema.Parse | data/schema.ts:135-144 | Parsing succeeds iff the document is valid, returns the document itself, and otherwise reports exactly the failing sections (a non-empty list). |
| ContentLoader.Loader.constructor | lib/content-loader.ts:10 | The cache starts empty. |
| ContentLoader.Loader.GetPortfolioContent | lib/content-loader.ts:29-45 | With a filled cache: returns the cached value and does not validate again. Otherwise: validates once, fills the cache only on success, and returns the validated document. On failure: returns the fixed error message and the cache stays empty. Success iff the document is valid. |
| ContentLoader.Loader.GetPersonalInfo | lib/content-loader.ts:50-52 | Returns exactly the `personal` field of the loaded content; on failure, the same fixed "Invalid portfolio content structure" error that `getPortfolioContent` throws. Success iff the document is valid. |
| ContentLoader.Loader.GetHeroContent | lib/content-loader.ts:57-59 | Returns exactly the `hero` field; on failure, the same fixed "Invalid portfolio content structure" error that `getPortfolioContent` throws. Success iff the document is valid. |
| ContentLoader.Loader.GetAboutContent | lib/content-loader.ts:64-66 | Returns exactly the `about` field; on failure, the same fixed "Invalid portfolio content structure" error that `getPortfolioContent` throws. Success iff the document is valid. |
| ContentLoader.Loader.GetSkillsContent | lib/content-loader.ts:71-73 | Returns exactly the `skills` field; on failure, the same fixed "Invalid portfolio content structure" error that `getPortfolioContent` throws. Success iff the document is valid. |
| ContentLoader.Loader.GetExperienceContent | lib/content-loader.ts:78-80 | Returns exactly the `experience` field; on failure, the same fixed "Invalid portfolio content structure" error that `getPortfolioContent` throws. Success iff the document is valid. |
| ContentLoader.Loader.GetProjectsContent | lib/content-loader.ts:85-87 | Returns exactly the `projects` field; on failure, the same fixed "Invalid portfolio content structure" error that `getPortfolioContent` throws. Success iff the document is valid. |
| ContentLoader.Loader.GetCertificationsContent | lib/content-loader.ts:92-94 | Returns exactly the `certifications` field; on failure, the same fixed "Invalid portfolio content structure" error that `getPortfolioContent` throws. Success iff the document is valid. |
| ContentLoader.Loader.GetContactContent | lib/content-loader.ts:99-101 | Returns exactly the `contact` field; on failure, the same fixed "Invalid portfolio content structure" error that `getPortfolioContent` throws. Success iff the document is valid. |
| ContentLoader.ValidatesOnce | lib/content-loader.ts:30-38 | After a successful load, a later accessor call on the same loader succeeds with the field of the same document. |
| ContentLoader.RetriesAfterFailure | lib/content-loader.ts:30-44 | After a failed load the next call fails again with the same error, since the cache stayed empty. |
| Bold.SplitProperties | lib/content-loader.ts:16 | The split has an odd number of parts. Every odd-indexed part is a bold capture: no line terminator, no `**`. Joining the parts, with odd parts wrapped in `**`, gives back the input. |
| Bold.CloseFromIsFirst | lib/content-loader.ts:16 | The lazy capture stops at the first `**` after the opening one, and crosses no line terminator. |
| Bold.SplitFromNoMatch | lib/content-loader.ts:16 | Where the pattern matches nowhere from a position on, the rest of the text is a single plain part. |
| Bold.SplitFromFirstMatch | lib/content-loader.ts:16 | At the leftmost match from a position on, the parts are the text up to the match, then its capture, then the split resumed after its closing `**`. With SplitFromNoMatch this fixes every part: even parts are the plain text between matches, odd parts the captures. |
| Bold.SplitExamples | lib/content-loader.ts:16 | "a **b** c" splits into "a ", "b", " c"; "**x" has no closing marker and stays whole. |
| Bold.RenderBold | lib/content-loader.ts:15-22 | Fragment i holds part i of the split, and is bold iff i is odd; there is an odd number of fragments. |
| Bold.RenderBoldExample | lib/content-loader.ts:15-22 | "a **b** c" renders as a plain "a ", a bold "b" and a plain " c". |
| Bold.RenderBoldRoundTrip | components/Experience.tsx:21-32 | Writing the rendered fragments back as markup (bold as `**…**`) gives the original text, and every bold fragment is a valid capture. |
| Metric.ExtractMetric | components/Experience.tsx:35-38 | A result ends in '%', has at least one character before it, and every character before the '%' is a digit. |
| Metric.ExtractMetricIsFirstPercentRun | components/ProjectsEnhanced.tsx:17-20 | There is no result iff no '%' has a digit right before it. Otherwise the result is the whole digit run before the first such '%', with the '%'. |
| Metric.ExtractMetricExamples | components/Projects.tsx:15-18 | The leftmost metric wins ("70%" before "85%"). A '%' with no digit before it is skipped. Text without a metric gives none. |
| Config.IconName | data/config.ts:14-21 | Every icon is registered in the icon map under its own name. |
| Config.IconMapCoversSchema | data/config.ts:14-21 | The icon map's keys are exactly the contact icon names the schema accepts. |
| Config.GradientMapCoversSchema | data/config.ts:24-33 | The gradient map's keys are exactly the project gradients the schema accepts. |
| Config.GetIcon | data/config.ts:40-47 | A schema icon name resolves to the icon of that name. The result is Mail iff the name is "Mail" or unknown; the lookup never fails. |
| Config.GetIconName | data/config.ts:40-47 | Looking up an icon's name gives the icon back. |
| Config.GetGradient | data/config.ts:54-61 | A schema gradient resolves to its own entry; any other name resolves to the blue entry. |
| Config.GetGradientInjective | data/config.ts:24-33 | Two schema gradients give the same classes iff they are the same gradient. |
| Config.GetIconAsWritten | data/config.ts:41-45 | As written, the lookup returns an inherited `Object.prototype` member exactly for the inherited names; for every other name it agrees with `GetIcon`. |
| Config.GetGradientAsWritten | data/config.ts:55-59 | As written, the lookup returns an inherited member exactly for the inherited names; for every other name it agrees with `GetGradient`. |
| Config.InheritedNameSkipsFallback | data/config.ts:40-61 | For "toString" and "constructor", the as-written lookups return inherited members; the corrected ones return Mail and the blue preset. |
| Config.AsWrittenAgreesOnSchemaNames | data/config.ts:14-33 | Every schema-valid icon name and gradient resolves identically in both versions, without using the fallback. |
| CircularProgress.Stops | components/ui/CircularProgress.tsx:16-37 | Each colour has two seven-character hex stops. |
| CircularProgress.GetSkillColor | components/ui/CircularProgress.tsx:39-51 | The colour is green iff the level is ≥ 90, blue iff 80–89, cyan iff 70–79, purple iff below 70. The function is total. |
| CircularProgress.GetSkillColorMonotone | components/ui/CircularProgress.tsx:46-51 | A higher level never lands in a lower band. |
| CircularProgress.SelectedColor | components/ui/CircularProgress.tsx:66 | An explicit colour prop wins; without one the level's colour is used. |
| CircularProgress.RingStops | components/ui/CircularProgress.tsx:66-67 | The ring uses the prop colour's table entry; without a prop, levels ≥ 90 get #10B981–#34D399, 80–89 #3B82F6–#60A5FA, 70–79 #06B6D4–#22D3EE and below 70 #8B5CF6–#A78BFA. |
| Skills.DisplayName | components/Skills.tsx:29-37 | The six known categories show their short names; any other category shows unchanged. |
| Skills.DisplayNameUnchangedIff | components/Skills.tsx:29-37 | A tab shows its category unchanged iff the category is not one of the six. |
| Skills.DisplayNameAsWritten | components/Skills.tsx:37 | As written, inherited names yield an `Object.prototype` member; every other name agrees with `DisplayName`. |
| Skills.InheritedCategoryName | components/Skills.tsx:37 | A category named "constructor" gets a function as its tab label as written, and its own name when corrected. |
| Skills.ProficiencyLabel | components/Skills.tsx:127-133 | The label is Master iff the level is ≥ 90, Proficient iff 80–89, Competent iff 70–79, Learning iff below 70. |
| Skills.LabelAgreesWithColor | components/Skills.tsx:82-133 | The badge label and the ring colour use the same bands. |
| Skills.BadgeConditions | components/Skills.tsx:115-124 | The four badge-style conditions are true exactly at the band of the level's colour. |
| Skills.ExactlyOneBadge | components/Skills.tsx:115-124 | Exactly one badge style applies to any level. |
| Skills.SkillsView.constructor | components/Skills.tsx:15 | The first tab starts selected. |
| Skills.SkillsView.VisibleItems | components/Skills.tsx:81 | The grid shows the items of the selected category. When there is no such category the source fails, and the model returns none. |
| Skills.SkillsView.SelectTab | components/Skills.tsx:42 | Clicking tab i selects it and only it, and the grid then shows category i's items. |
| Certifications.GetCertGradient | components/Certifications.tsx:12-23 | Only the lower-cased issuer is examined. An AI keyword ("ai", "gen", "anthropic") gives purple first, then a cloud keyword gives blue, then "tester"/"test" gives green, else cyan. Each colour has its own fixed stops. |
| Certifications.Stops | components/Certifications.tsx:15-21 | Each colour's stops carry that colour. |
| Certifications.GreenIffTest | components/Certifications.tsx:18 | The green test holds iff the issuer contains "test"; the "tester" alternative adds nothing. |
| Certifications.GetCertGradientExamples | components/Certifications.tsx:13-17 | "Oracle" is blue. "OpenAI Cloud" is purple: the AI check wins, and matching ignores case. |
| CertificationsEnhanced.CertCategory | components/CertificationsEnhanced.tsx:49-59 | A workshop or conference is "events" whatever its name. Otherwise the lower-cased name and issuer are tested in priority order: cloud, ai, testing, development, else "all". Each category holds iff no earlier group matched and its own did. The result is always one of the six tab ids. |
| CertificationsEnhanced.GetCategoryGradient | components/CertificationsEnhanced.tsx:62-82 | The function is total. "events" gets the orange-red border with a purple glow. Cloud and development share the cyan-blue border. Each category gets its colour and gradient stops (cloud blue #3B82F6–#60A5FA, ai purple #A855F7–#C084FC, testing green #10B981–#34D399, development cyan #06B6D4–#22D3EE, events purple #F59E0B–#EF4444). Any category outside the five, "all" among them, gets the blue-purple border, blue colour and #3B82F6–#60A5FA. |
| CertificationsEnhanced.TypeBadge | components/CertificationsEnhanced.tsx:85-97 | Workshop, Conference and Course are labelled by name. No type, "certification", "bootcamp" and "webinar" are all labelled Certification. |
| CertificationsEnhanced.EventBadges | components/CertificationsEnhanced.tsx:51 | An event's badge is Workshop or Conference, and its border is orange-red. |
| CertificationsEnhanced.EnhancedYear | components/CertificationsEnhanced.tsx:121 | A truthy year is kept. A missing or zero year becomes 2025 if the name contains "2025", else 2024 if it contains "2024", else none. |
| CertificationsEnhanced.EnhancedYearExamples | components/CertificationsEnhanced.tsx:121 | "2025" is checked before "2024". A zero year is replaced. A real year is kept. |
| CertificationsEnhanced.EnhancedLink | components/CertificationsEnhanced.tsx:123 | A missing or empty link becomes "#verify-credential"; any other link is kept. |
| CertificationsEnhanced.ValidLinkIffOwnLink | components/CertificationsEnhanced.tsx:181 | A card shows a verification link iff its own link is present and is not "", the placeholder, or "#". |
| CertificationsEnhanced.Enhance | components/CertificationsEnhanced.tsx:117-124 | An enhanced certificate has its category, defaulted year and defaulted link; every other field is unchanged. |
| CertificationsEnhanced.EnhanceAll | components/CertificationsEnhanced.tsx:117-124 | Every certificate is enhanced, in order. |
| CertificationsEnhanced.OfCategory | components/CertificationsEnhanced.tsx:129 | Keeps exactly the certificates of the given category. |
| CertificationsEnhanced.OfCategoryOrder | components/CertificationsEnhanced.tsx:129 | A single certificate is kept iff it has the category; a concatenation is filtered part by part; the length is the number of matches. So matches keep their order and multiplicity. |
| CertificationsEnhanced.FilterCerts | components/CertificationsEnhanced.tsx:127-129 | The "all" tab shows every certificate; any other tab shows exactly the certificates of that category. |
| CertificationsEnhanced.FilterCertsOrder | components/CertificationsEnhanced.tsx:127-129 | Every tab keeps a single certificate iff it belongs there, and filters a concatenation part by part, so the gallery's order is kept. |
| CertificationsEnhanced.TabsPartition | components/CertificationsEnhanced.tsx:39-46 | The five category tabs, plus the certificates no keyword matched, account for every certificate exactly once. |
| CertificationsEnhanced.UncategorisedOnlyUnderAll | components/CertificationsEnhanced.tsx:127-129 | A certificate that fell through to "all" appears under a tab iff the tab is "all". |
| CertificationsEnhanced.Issuers | components/CertificationsEnhanced.tsx:354 | The issuer set holds exactly the issuers of the certificates. |
| CertificationsEnhanced.IssuerCountBounds | components/CertificationsEnhanced.tsx:354 | The Organizations figure is at most the number of certificates, and at least 1 when there is any. |
| CertificationsEnhanced.CertificationsView.constructor | components/CertificationsEnhanced.tsx:101-104 | Starts on the "all" tab with nothing hovered, nothing selected and the modal closed, so every certificate is shown. |
| CertificationsEnhanced.CertificationsView.FilteredCerts | components/CertificationsEnhanced.tsx:127-129 | The grid is the active tab's filter of the gallery. |
| CertificationsEnhanced.CertificationsView.SelectCategory | components/CertificationsEnhanced.tsx:146 | A tab click makes that category active, and the grid becomes its filter. |
| CertificationsEnhanced.CertificationsView.HoverStart | components/CertificationsEnhanced.tsx:188 | The card under the pointer, and only it, is hovered. |
| CertificationsEnhanced.CertificationsView.HoverEnd | components/CertificationsEnhanced.tsx:189 | No card is hovered. |
| CertificationsEnhanced.CertificationsView.OpenModal | components/CertificationsEnhanced.tsx:106-109 | Selects the certificate and opens the modal. |
| CertificationsEnhanced.CertificationsView.CloseModal | components/CertificationsEnhanced.tsx:111-114 | Closes the modal at once and keeps the selection until the timer fires. |
| CertificationsEnhanced.CertificationsView.ClearSelectionAsWritten | components/CertificationsEnhanced.tsx:113 | The timer clears the selection unconditionally, which breaks the invariant exactly when the modal has been reopened. |
| CertificationsEnhanced.CertificationsView.ClearSelection | components/CertificationsEnhanced.tsx:113 | The corrected timer clears the selection only if the modal is still closed, and so keeps "open implies selected". |
| CertificationsEnhanced.ReopenWithinDelay | components/CertificationsEnhanced.tsx:106-114 | Open, close and reopen within the delay, then the timer fires: as written the modal is open but not shown; corrected, it is shown. |
| Experience.Toggle | components/Experience.tsx:44-52 | The toggled index changes membership; every other index keeps its membership. |
| Experience.ToggleTwice | components/Experience.tsx:44-52 | Toggling the same job twice restores the set. |
| Experience.ToggleCommutes | components/Experience.tsx:44-52 | Toggles of two jobs commute. |
| Experience.VisibleAchievements | components/Experience.tsx:84-86 | An expanded card lists all achievements. A collapsed card lists the first min(6, len). The list is always a prefix. |
| Experience.FewAreAllVisible | components/Experience.tsx:83-86 | With at most six achievements every one is listed, expanded or not. |
| Experience.Button | components/Experience.tsx:224-242 | There is no button iff there are at most six achievements. An expanded card shows "Show Less"; a collapsed one shows "Show n More" with n ≥ 1. |
| Experience.ShowMoreCountsHidden | components/Experience.tsx:239 | The n in "Show n More" is exactly the number of achievements the collapsed card hides. |
| Experience.CardColor | components/Experience.tsx:134 | The card colour is blue, purple, cyan, green by index mod 4. |
| Experience.NeighbourCards | components/Experience.tsx:81 | Consecutive cards sit on opposite sides and differ in colour; the colours repeat every four. |
| Experience.ExperienceView.constructor | components/Experience.tsx:42 | Initially only job 0 is expanded. |
| Experience.ExperienceView.ToggleJob | components/Experience.tsx:44-52 | The new set is the toggle of the old one at that index. |
| Experience.ExperienceView.Visible | components/Experience.tsx:82-86 | An expanded job lists everything; a collapsed one lists at most six, as a prefix. |
| Hero.Prefix | components/Hero.tsx:68 | `substring(0, end)` clamps the end index and returns a prefix of that length. |
| Hero.Next | components/Hero.tsx:61-88 | One timer step keeps the role index in range, and keeps the shown text a prefix of the current role. |
| Hero.Delay | components/Hero.tsx:67-83 | Each step waits 80, 2000, 40 or 100 ms. |
| Hero.NextCases | components/Hero.tsx:65-84 | Typing adds the role's next character. With the whole role shown, the step switches to deleting and leaves the text alone. Deleting drops the last character. With nothing left it stops deleting and moves to (index + 1) mod the number of roles. |
| Hero.Run | components/Hero.tsx:61-88 | Any number of steps keeps the invariant. |
| Hero.ElapsedBounds | components/Hero.tsx:67-83 | n steps take between 40n and 2000n ms. |
| Hero.RunAdd | components/Hero.tsx:61-88 | Steps and their durations compose. |
| Hero.TypingPhase | components/Hero.tsx:65-72 | Typing from any prefix reaches the whole role at 80 ms per character. |
| Hero.DeletingPhase | components/Hero.tsx:74-77 | Deleting from any prefix reaches the empty text at 40 ms per character. |
| Hero.FullCycle | components/Hero.tsx:61-88 | From an empty line on role i, after 2·len + 2 steps the line is empty on role (i + 1) mod the number of roles. This takes 120 ms per character plus 2100 ms. |
| Hero.Typewriter.constructor | components/Hero.tsx:16-18 | Starts on role 0, typing, with empty text. |
| Hero.Typewriter.Tick | components/Hero.tsx:61-88 | The field update is exactly one transition of `Next`, and it keeps the invariant. |
| Hero.Location | components/Hero.tsx:21 | The value of the first detail labelled "Location", unless it is missing or empty, in which case "Hyderabad, India". |
| Hero.SocialLink | components/Hero.tsx:24-25 | The LinkedIn and GitHub links: the href of the first contact item with that icon name, else "". |
| Projects.GlowColor | components/Projects.tsx:70-80 | blue, purple, cyan and green glow as themselves; every other gradient glows blue. The same mapping is at components/ProjectsEnhanced.tsx:166-176 and 341-351. |
| Projects.GlowColorOfValidGradients | components/Projects.tsx:70-80 | Of the five schema gradients only indigo changes colour, to blue. |
| Projects.Card | components/Projects.tsx:53-56 | A card carries the project's gradient classes, its glow colour and its metric. A metric, when present, ends in '%'. |
| Projects.Cards | components/Projects.tsx:53-56 | One card per project, in order; only the first may be featured. |
| Projects.OneFeatured | components/Projects.tsx:55 | In a non-empty grid exactly the first card is featured. |
| Projects.View | components/Projects.tsx:24-36 | The empty state is shown iff projects are absent or empty; otherwise card i is the card of project i (gradient, glow and metric as `Card` gives them), featured exactly when it is the first. |
| Projects.OrganizationsOnlyIsEmpty | components/Projects.tsx:24-36 | A valid section with only organizations shows the empty state in this component. |
| ProjectsEnhanced.OrgGradientMapCoversSchema | components/ProjectsEnhanced.tsx:23-29 | The map's keys are exactly the organization gradients the schema accepts. |
| ProjectsEnhanced.OrgColors | components/ProjectsEnhanced.tsx:38 | A schema gradient gets its own entry; anything else gets the blue-purple entry. The colour is purple iff the gradient is purple-pink. |
| ProjectsEnhanced.OrgColorsAsWritten | components/ProjectsEnhanced.tsx:38 | As written, inherited names yield an `Object.prototype` member; every other name agrees with `OrgColors`. |
| ProjectsEnhanced.InheritedGradientSkipsFallback | components/ProjectsEnhanced.tsx:38 | The gradient "valueOf" yields an inherited function as written, and the blue-purple entry when corrected. |
| ProjectsEnhanced.ProjectsLabel | components/ProjectsEnhanced.tsx:104 | "Project" iff the total is 1, otherwise "Projects". |
| ProjectsEnhanced.OrgCards | components/ProjectsEnhanced.tsx:149-151 | One card per project of the organization. Card i is featured iff i = 0 and there is more than one project. |
| ProjectsEnhanced.OrgFeatured | components/ProjectsEnhanced.tsx:151 | A lone project is not featured; otherwise exactly the first is. |
| ProjectsEnhanced.ChooseLayout | components/ProjectsEnhanced.tsx:293-324 | The grouped layout is used iff organizations are present and non-empty. Otherwise the legacy layout shows the optional project list. |
| ProjectsEnhanced.LegacyCards | components/ProjectsEnhanced.tsx:324-327 | No cards when projects are absent; otherwise card i is the legacy card of project i, featured exactly when it is the first. |
| ProjectsEnhanced.EmptyOrganizationsShowNothing | components/ProjectsEnhanced.tsx:293 | The schema accepts an empty organization list with no projects, and the page then shows no project. |
| ProjectsEnhanced.OrganizationSection.constructor | components/ProjectsEnhanced.tsx:37 | An organization starts expanded, showing all its cards. |
| ProjectsEnhanced.OrganizationSection.Colors | components/ProjectsEnhanced.tsx:38 | The header colours are always an entry of the map. |
| ProjectsEnhanced.OrganizationSection.VisibleCards | components/ProjectsEnhanced.tsx:135-149 | All of the organization's cards when expanded, none when collapsed. |
| ProjectsEnhanced.OrganizationSection.Toggle | components/ProjectsEnhanced.tsx:111 | Each click flips the expand state. |
| Contact.ResumeItem | components/Contact.tsx:30 | The first item labelled "Resume", or none iff there is no such item. |
| Contact.ContactItems | components/Contact.tsx:31 | Exactly the non-Resume items. Their number is the item count minus the Resume count. |
| Contact.ContactItemsAppend | components/Contact.tsx:31 | The filter keeps the original order. |
| Contact.LaterResumeHidden | components/Contact.tsx:30-31 | A Resume item after the first is not a card, and the button shows an earlier item. |
| Contact.Border | components/Contact.tsx:79 | The "Email" card gets cyan-blue; every other card gets blue-purple. |
| Contact.Target | components/Contact.tsx:75 | A link opens in a new tab iff `external` is true. |
| Contact.Card | components/Contact.tsx:62-79 | A card carries the item's icon (with fallback), border and target. |
| Contact.Cards | components/Contact.tsx:62 | One card per non-Resume item, in order; no card is a Resume. |
| Contact.Resume | components/Contact.tsx:116-126 | The button exists iff there is a Resume item. It uses that item's link, target and text. |
| Contact.ShownCount | components/Contact.tsx:30-31 | Cards plus the button never exceed the items. With at most one Resume item every item is shown exactly once. |
| Sidebar.SectionId | components/Sidebar.tsx:45 | The href without its first character. |
| Sidebar.SectionIds | components/Sidebar.tsx:45 | One id per nav item, in order. |
| Sidebar.SectionIdsOfNav | components/Sidebar.tsx:28-36 | The ids are the seven hrefs without '#', in nav order, and no two are equal. |
| Sidebar.LastReached | components/Sidebar.tsx:46-57 | The last section whose element exists with top ≤ 120, if any: no later section is reached, and if none is reached there are none. |
| Sidebar.ActiveSection | components/Sidebar.tsx:44-58 | The loop computes the last reached section in nav order, or "home" when none is reached. |
| Sidebar.ActiveIsASection | components/Sidebar.tsx:46-57 | Over the seven nav sections the active section is always one of them. |
| Sidebar.LaterReachedWins | components/Sidebar.tsx:48-56 | A reached section with no reached section after it is the active one, whatever came before. |
| Sidebar.SidebarView.constructor | components/Sidebar.tsx:39-41 | Starts at "home" with the mobile menu closed and the sidebar expanded. |
| Sidebar.SidebarView.SidebarWidth | components/Sidebar.tsx:71-85 | 72px iff collapsed, 240px iff not. |
| Sidebar.SidebarView.HandleScroll | components/Sidebar.tsx:44-58 | The active section becomes the loop's result and stays one of the seven sections. |
| Sidebar.SidebarView.HandleNavClick | components/Sidebar.tsx:77-78 | A nav click always closes the mobile menu. |
| Sidebar.SidebarView.ToggleMobile | components/Sidebar.tsx:91 | The menu button flips the mobile menu. |
| Sidebar.SidebarView.CloseOverlay | components/Sidebar.tsx:106 | A click on the overlay closes the mobile menu. |
| Sidebar.SidebarView.ToggleCollapsed | components/Sidebar.tsx:119 | Flips the collapsed flag and switches the width between 240 and 72. |
| Sidebar.SidebarView.ExactlyOneActive | components/Sidebar.tsx:185 | Exactly one nav item is highlighted at any time. |

## Left out

- Rendering: JSX trees, Tailwind class strings, framer-motion variants, hover scaling and the glow-card intensity props are presentation.
- CertificationsEnhanced.TypeBadge: returns the badge label only; the badge's colour classes are presentation.
- The circle geometry of the progress ring (radius, circumference, offset with `Math.PI`) is floating-point presentation.
- Timers: `setTimeout`, `clearTimeout` and the effect's cleanup are not modelled as a scheduler.
  - The typewriter's delays are given by `Hero.Delay` and summed by `Hero.Elapsed`.
  - A step cancelled by a re-render is not modelled.
  - The certificate modal's 300 ms timer is the separate method `ClearSelection`.
- DOM access: `getElementById`, `getBoundingClientRect` and `scrollIntoView`. Section tops are an input to `Sidebar.ActiveSection`; `HandleNavClick` does not model the smooth scroll.
- Events and the root style: the `sidebar-toggle` `CustomEvent` and the `--sidebar-w` CSS variable. Their value is `Sidebar.SidebarView.SidebarWidth`.
- zod: the e-mail regular expression is the parameter `isEmail`. zod's error objects are reduced to a list of failing section names. zod's stripping of unknown keys is not modelled; documents here have no extra keys.
- The JSON import: the raw document is a parameter of the loader.
- Logging: `console.warn` and `console.error` have no effect on results.
- Generated and constant display values: the random or time-based gradient id, the hero stats and skill lists, the "Latest Year" figure and the footer's current year are constant or random display values.
- Text.ToLower: lower-cases ASCII letters only. `toLowerCase` also maps non-ASCII capitals, which the keyword lists (all ASCII) would only match through such letters.
- Hero.Prefix: counts characters rather than UTF-16 code units. A role with characters outside the Basic Multilingual Plane is typed one character per step here, and one code unit per step in the browser.
- Numbers: skill level, year and total project count are integers, and section tops are reals. NaN, infinities and fractional levels are not modelled.
- The about and experience schemas constrain nothing beyond their field types, so `ValidPortfolio` leaves them unconstrained. Field types themselves are given by the datatypes.
- `components/About.tsx`, `components/ContactEnhanced.tsx`, the UI helpers and the app shell are not part of this model.

## Findings

| source | as written | input that shows it | evidently intended | confidence | as-written member | corrected member |
|---|---|---|---|---|---|---|
| data/config.ts:41-45 | `ICON_MAP[iconName]` then `if (!icon)`; an inherited `Object.prototype` member is truthy, so it is returned instead of the fallback | `getIcon("toString")` returns `Object.prototype.toString` | Mail for every name that is not one of the six icons | low (not executed; schema-validated names never reach it) | Config.GetIconAsWritten, Config.InheritedNameSkipsFallback | Config.GetIcon |
| data/config.ts:55-59 | `GRADIENT_MAP[gradientName]` then `if (!gradient)` | `getGradient("constructor")` returns the `Object` constructor, with no `from`/`to` | the blue preset for every unknown name | low (not executed; schema-validated names never reach it) | Config.GetGradientAsWritten, Config.InheritedNameSkipsFallback | Config.GetGradient |
| components/ProjectsEnhanced.tsx:38 | `orgGradientMap[organization.gradient] \|\| orgGradientMap["blue-purple"]` | an organization gradient "valueOf" gets a function as its colours | the blue-purple entry for every unknown gradient | low (not executed; the schema rejects such gradients) | ProjectsEnhanced.OrgColorsAsWritten, ProjectsEnhanced.InheritedGradientSkipsFallback | ProjectsEnhanced.OrgColors |
| components/Skills.tsx:37 | `categoryMap[category.category] \|\| category.category` | a skill category named "constructor" gets a function as its tab label | the category name itself for every category outside the six | medium (not executed; category names are unvalidated strings) | Skills.DisplayNameAsWritten, Skills.InheritedCategoryName | Skills.DisplayName |
| components/CertificationsEnhanced.tsx:111-114 | `closeModal` schedules `setSelectedCert(null)` after 300 ms unconditionally | open a certificate, close it, open one again within 300 ms: the timer clears the selection while `isModalOpen` is true, so the modal disappears | the delayed clear applies only if the modal is still closed | medium (not executed; depends on click timing) | CertificationsEnhanced.CertificationsView.ClearSelectionAsWritten, CertificationsEnhanced.ReopenWithinDelay | CertificationsEnhanced.CertificationsView.ClearSelection |
