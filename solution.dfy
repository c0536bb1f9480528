/**
 * The solution lookup: a fixed table of advice keyed by rule id, and a
 * fallback built from the issue itself for every other id.
 *
 * Where an entry adapts the offending element's markup, the concrete
 * regular-expression rewrite is the parameter `rewrite(id, html)`; the
 * clock reading in the "label" entry is the parameter `now`.
 */
module SolutionProvider {
  import opened AccessibilityTypes
  import opened Text

  /** `issue?.nodes[0]?.html || ""`: the first affected element's markup, or "" when there is none. */
  function ActualHtml(issue: Option<Issue>): (html: string)
    ensures issue.None? || |issue.value.nodes| == 0 ==> html == ""
    ensures issue.Some? && |issue.value.nodes| > 0 ==> html == issue.value.nodes[0].html
  {
    if issue.Some? && |issue.value.nodes| > 0 then issue.value.nodes[0].html else ""
  }

  /**
   * One table entry. `before` and `after` are its stock example; an entry
   * that adapts the issue's markup shows that markup as `before` and, as
   * `after`, the rewritten markup followed by `fixNote`.
   */
  datatype Advice = Advice(
    title: string,
    description: string,
    before: string,
    after: string,
    fixNote: string,
    criteria: seq<string>)

  /** The rules the table holds an entry for. */
  datatype RuleId =
    | ColorContrast | ImageAlt | ButtonName | LinkName | Label | HtmlHasLang
    | LandmarkOneMain | Region | HeadingOrder | PageHasHeadingOne | AriaHiddenFocus
    | AriaRequiredAttr | DuplicateId | MetaViewport | Tabindex | AriaValidAttrValue

  /** The axe rule id of a known rule: the table's key. */
  function RuleName(rule: RuleId): string
  {
    match rule
    case ColorContrast => "color-contrast"
    case ImageAlt => "image-alt"
    case ButtonName => "button-name"
    case LinkName => "link-name"
    case Label => "label"
    case HtmlHasLang => "html-has-lang"
    case LandmarkOneMain => "landmark-one-main"
    case Region => "region"
    case HeadingOrder => "heading-order"
    case PageHasHeadingOne => "page-has-heading-one"
    case AriaHiddenFocus => "aria-hidden-focus"
    case AriaRequiredAttr => "aria-required-attr"
    case DuplicateId => "duplicate-id"
    case MetaViewport => "meta-viewport"
    case Tabindex => "tabindex"
    case AriaValidAttrValue => "aria-valid-attr-value"
  }

  /** `solutions[violationId]`: the rule a key names, if the table has it. */
  function LookupRule(id: string): (rule: Option<RuleId>)
    ensures rule.Some? ==> RuleName(rule.value) == id
    ensures rule.None? ==> forall r: RuleId :: RuleName(r) != id
  {
    if id == "color-contrast" then Some(ColorContrast)
    else if id == "image-alt" then Some(ImageAlt)
    else if id == "button-name" then Some(ButtonName)
    else if id == "link-name" then Some(LinkName)
    else if id == "label" then Some(Label)
    else if id == "html-has-lang" then Some(HtmlHasLang)
    else if id == "landmark-one-main" then Some(LandmarkOneMain)
    else if id == "region" then Some(Region)
    else if id == "heading-order" then Some(HeadingOrder)
    else if id == "page-has-heading-one" then Some(PageHasHeadingOne)
    else if id == "aria-hidden-focus" then Some(AriaHiddenFocus)
    else if id == "aria-required-attr" then Some(AriaRequiredAttr)
    else if id == "duplicate-id" then Some(DuplicateId)
    else if id == "meta-viewport" then Some(MetaViewport)
    else if id == "tabindex" then Some(Tabindex)
    else if id == "aria-valid-attr-value" then Some(AriaValidAttrValue)
    else None
  }

  /** The entries whose example never uses the issue's markup. */
  predicate IsFixed(rule: RuleId)
  {
    rule in {HtmlHasLang, LandmarkOneMain, Region, PageHasHeadingOne, MetaViewport}
  }

  /** `<label for="input-${Date.now()}">Input Label</label>` and a line break. */
  function LabelLead(now: nat): string
  {
    "<label for=\"input-" + NatToString(now) + "\">Input Label</label>\n"
  }

  /** An entry that never uses the issue's markup has no note to append. */
  function Fixed(title: string, description: string, before: string, after: string, criteria: seq<string>): Advice
  {
    Advice(title, description, before, after, "", criteria)
  }

  /** What goes before the rewritten markup: only the "label" entry puts its label element there. */
  function FixLead(rule: RuleId, now: nat): string
  {
    if rule == Label then LabelLead(now) else ""
  }

  /** The entry of each known rule. */
  function Table(rule: RuleId): (advice: Advice)
    ensures |advice.criteria| > 0
    ensures IsFixed(rule) ==> advice.fixNote == ""
  {
    match rule
    case ColorContrast => ColorContrastAdvice
    case ImageAlt => ImageAltAdvice
    case ButtonName => ButtonNameAdvice
    case LinkName => LinkNameAdvice
    case Label => LabelAdvice
    case HtmlHasLang => HtmlHasLangAdvice
    case LandmarkOneMain => LandmarkOneMainAdvice
    case Region => RegionAdvice
    case HeadingOrder => HeadingOrderAdvice
    case PageHasHeadingOne => PageHasHeadingOneAdvice
    case AriaHiddenFocus => AriaHiddenFocusAdvice
    case AriaRequiredAttr => AriaRequiredAttrAdvice
    case DuplicateId => DuplicateIdAdvice
    case MetaViewport => MetaViewportAdvice
    case Tabindex => TabindexAdvice
    case AriaValidAttrValue => AriaValidAttrValueAdvice
  }

  const ColorContrastAdvice := Advice(
      "Fix Color Contrast",
      "Ensure text has sufficient contrast against its background (minimum 4.5:1 for normal text, 3:1 for large text).",
      "<div style=\"color: #777; background: #fff;\">\n  Low contrast text\n</div>",
      "<div style=\"color: #333; background: #fff;\">\n  Good contrast text\n</div>\n\n<!-- Or use Tailwind -->\n<div class=\"text-gray-900 bg-white\">\n  Good contrast text\n</div>",
      "\n\n<!-- Use darker colors like #333, #000, or text-gray-900 for better contrast -->",
      ["1.4.3 Contrast (Minimum)", "1.4.6 Contrast (Enhanced)"])

  const ImageAltAdvice := Advice(
      "Add Alt Text to Images",
      "All images must have descriptive alt text for screen readers.",
      "<img src=\"logo.png\">",
      "<img src=\"logo.png\" alt=\"Company Logo\">\n\n<!-- For decorative images -->\n<img src=\"decoration.png\" alt=\"\" role=\"presentation\">",
      "\n\n<!-- Replace \"Descriptive text here\" with actual description -->",
      ["1.1.1 Non-text Content"])

  const ButtonNameAdvice := Advice(
      "Add Accessible Name to Button",
      "Buttons must have discernible text or an accessible name.",
      "<button>\n  <i class=\"icon-search\"></i>\n</button>",
      "<button aria-label=\"Search\">\n  <i class=\"icon-search\"></i>\n</button>\n\n<!-- Or use visible text -->\n<button>\n  <i class=\"icon-search\"></i>\n  <span>Search</span>\n</button>",
      "\n\n<!-- Or add visible text inside the button -->",
      ["4.1.2 Name, Role, Value"])

  const LinkNameAdvice := Advice(
      "Add Accessible Name to Link",
      "Links must have discernible text that describes their purpose.",
      "<a href=\"/read-more\">\n  <img src=\"arrow.png\">\n</a>",
      "<a href=\"/read-more\" aria-label=\"Read more about accessibility\">\n  <img src=\"arrow.png\" alt=\"\">\n</a>\n\n<!-- Or use visible text -->\n<a href=\"/read-more\">\n  Read more <img src=\"arrow.png\" alt=\"\">\n</a>",
      "\n\n<!-- Add descriptive aria-label or visible text -->",
      ["2.4.4 Link Purpose (In Context)", "4.1.2 Name, Role, Value"])

  const LabelAdvice := Advice(
      "Add Label to Form Input",
      "Form inputs must have associated labels.",
      "<input type=\"text\" placeholder=\"Enter email\">",
      "<label for=\"email\">Email Address</label>\n<input type=\"text\" id=\"email\" placeholder=\"Enter email\">\n\n<!-- Or use aria-label -->\n<input \n  type=\"text\" \n  aria-label=\"Email Address\" \n  placeholder=\"Enter email\"\n>",
      "\n\n<!-- Or add aria-label attribute -->",
      ["1.3.1 Info and Relationships", "3.3.2 Labels or Instructions"])

  const HtmlHasLangAdvice := Fixed(
      "Add Language Attribute to HTML",
      "The html element must have a lang attribute to identify the page language.",
      "<html>\n  <head>...</head>\n  <body>...</body>\n</html>",
      "<html lang=\"en\">\n  <head>...</head>\n  <body>...</body>\n</html>\n\n<!-- For other languages -->\n<html lang=\"es\"> <!-- Spanish -->\n<html lang=\"fr\"> <!-- French -->",
      ["3.1.1 Language of Page"])

  const LandmarkOneMainAdvice := Fixed(
      "Add Main Landmark",
      "Page must have one main landmark to identify the primary content.",
      "<div class=\"content\">\n  <h1>Page Title</h1>\n  <p>Content...</p>\n</div>",
      "<main>\n  <h1>Page Title</h1>\n  <p>Content...</p>\n</main>\n\n<!-- Or use role -->\n<div role=\"main\">\n  <h1>Page Title</h1>\n  <p>Content...</p>\n</div>",
      ["1.3.1 Info and Relationships", "2.4.1 Bypass Blocks"])

  const RegionAdvice := Fixed(
      "Use Landmark Regions",
      "Content should be contained within landmark regions for better navigation.",
      "<div class=\"header\">...</div>\n<div class=\"content\">...</div>\n<div class=\"footer\">...</div>",
      "<header>...</header>\n<main>...</main>\n<footer>...</footer>\n\n<!-- Or using ARIA roles -->\n<div role=\"banner\">...</div>\n<div role=\"main\">...</div>\n<div role=\"contentinfo\">...</div>",
      ["1.3.1 Info and Relationships"])

  const HeadingOrderAdvice := Advice(
      "Fix Heading Order",
      "Headings must be in a logical order (h1, h2, h3...) without skipping levels.",
      "<h1>Main Title</h1>\n<h3>Subsection</h3> <!-- Skipped h2 -->",
      "<h1>Main Title</h1>\n<h2>Section</h2>\n<h3>Subsection</h3>",
      "\n\n<!-- Ensure proper heading hierarchy -->",
      ["1.3.1 Info and Relationships", "2.4.6 Headings and Labels"])

  const PageHasHeadingOneAdvice := Fixed(
      "Add H1 Heading",
      "Page must contain exactly one h1 element as the main heading.",
      "<div class=\"title\">Welcome</div>",
      "<h1>Welcome</h1>\n\n<!-- Or update existing heading -->\n<h2>Welcome</h2> \U{2192} <h1>Welcome</h1>",
      ["1.3.1 Info and Relationships", "2.4.6 Headings and Labels"])

  const AriaHiddenFocusAdvice := Advice(
      "Fix Hidden Focusable Element",
      "Elements with aria-hidden='true' must not contain focusable elements.",
      "<div aria-hidden=\"true\">\n  <button>Click me</button> <!-- Should not be focusable -->\n</div>",
      "<div aria-hidden=\"true\">\n  <button tabindex=\"-1\">Click me</button>\n</div>\n\n<!-- Or remove aria-hidden -->\n<div>\n  <button>Click me</button>\n</div>",
      "\n\n<!-- Remove aria-hidden or add tabindex=\"-1\" to focusable children -->",
      ["1.3.1 Info and Relationships", "4.1.2 Name, Role, Value"])

  const AriaRequiredAttrAdvice := Advice(
      "Add Required ARIA Attributes",
      "ARIA roles must have all required attributes.",
      "<div role=\"checkbox\">Option</div>",
      "<div role=\"checkbox\" aria-checked=\"false\">Option</div>\n\n<!-- Or use native elements -->\n<input type=\"checkbox\" /> Option",
      "\n\n<!-- Add required aria attributes for this role -->",
      ["4.1.2 Name, Role, Value"])

  const DuplicateIdAdvice := Advice(
      "Fix Duplicate IDs",
      "ID attributes must be unique across the page.",
      "<div id=\"header\">First</div>\n<div id=\"header\">Second</div> <!-- Duplicate! -->",
      "<div id=\"header-1\">First</div>\n<div id=\"header-2\">Second</div>",
      "\n\n<!-- Make each ID unique -->",
      ["4.1.1 Parsing"])

  const MetaViewportAdvice := Fixed(
      "Fix Meta Viewport",
      "Meta viewport should not prevent zooming for accessibility.",
      "<meta name=\"viewport\" content=\"width=device-width, initial-scale=1, maximum-scale=1, user-scalable=no\">",
      "<meta name=\"viewport\" content=\"width=device-width, initial-scale=1\">\n\n<!-- Allow users to zoom for better readability -->",
      ["1.4.4 Resize Text"])

  const TabindexAdvice := Advice(
      "Fix Tab Index",
      "Avoid positive tabindex values. Use 0 or -1 for custom tab order.",
      "<button tabindex=\"3\">Click me</button>",
      "<button tabindex=\"0\">Click me</button>\n<button>Normal tab order</button>\n<button tabindex=\"-1\">Not in tab order</button>",
      "\n\n<!-- Use 0 for normal tab order, -1 to remove from tab order -->",
      ["2.4.3 Focus Order"])

  const AriaValidAttrValueAdvice := Advice(
      "Fix Invalid ARIA Attribute Value",
      "ARIA attributes must have valid values.",
      "<button aria-pressed=\"yes\">Toggle</button>",
      "<button aria-pressed=\"true\">Toggle</button>\n<button aria-pressed=\"false\">Toggle</button>",
      "\n\n<!-- Use true/false for boolean ARIA attributes -->",
      ["4.1.2 Name, Role, Value"])

  /** The solution the entry of `rule` gives for the markup `html`. */
  function FromAdvice(rule: RuleId, html: string, rewrite: (string, string) -> string, now: nat): (s: Solution)
    ensures s.title == Table(rule).title && s.description == Table(rule).description
    ensures s.wcagCriteria == Table(rule).criteria
    ensures IsFixed(rule) || html == "" ==> s.codeExample == CodeExample(Table(rule).before, Table(rule).after)
    ensures !IsFixed(rule) && html != "" ==> s.codeExample.before == html
  {
    var advice := Table(rule);
    var adapted := !IsFixed(rule) && html != "";
    Solution(
      advice.title,
      advice.description,
      CodeExample(
        if adapted then html else advice.before,
        if adapted then FixLead(rule, now) + rewrite(RuleName(rule), html) + advice.fixNote else advice.after),
      advice.criteria)
  }

  const DefaultTitleSubject := "Accessibility Issue"
  const DefaultDescription := "Review the WCAG guidelines for this issue."
  const DefaultBefore := "// Issue detected in your code"
  const DefaultAfter := "// Apply recommended fix from WCAG guidelines"
  const FallbackNote := "\n\n/* Apply the fix based on the failure summary above */"

  /** `tags.filter(tag => tag.startsWith("wcag"))` */
  function WcagTags(tags: seq<string>): (r: seq<string>)
    ensures |r| <= |tags|
    ensures forall k | 0 <= k < |r| :: StartsWith(r[k], "wcag") && r[k] in tags
    decreases |tags|
  {
    if |tags| == 0 then []
    else if StartsWith(tags[0], "wcag") then [tags[0]] + WcagTags(tags[1..])
    else WcagTags(tags[1..])
  }

  /** The solution for an id the table does not hold. */
  function Fallback(issue: Option<Issue>): (s: Solution)
    ensures StartsWith(s.title, "Fix: ")
    ensures issue.None? ==> s.wcagCriteria == [] && s.codeExample == CodeExample(DefaultBefore, DefaultAfter)
    ensures forall k | 0 <= k < |s.wcagCriteria| :: issue.Some? && s.wcagCriteria[k] in issue.value.tags
  {
    var html := ActualHtml(issue);
    Solution(
      "Fix: " + (if issue.Some? && issue.value.help != "" then issue.value.help else DefaultTitleSubject),
      if issue.Some? && issue.value.description != "" then issue.value.description else DefaultDescription,
      CodeExample(
        if html != "" then html else DefaultBefore,
        if html != "" then html + FallbackNote else DefaultAfter),
      if issue.Some? then WcagTags(issue.value.tags) else [])
  }

  /** `getSolution(violationId, issue)` */
  function GetSolution(id: string, issue: Option<Issue>, rewrite: (string, string) -> string, now: nat): (s: Solution)
    ensures LookupRule(id).Some? ==>
      && s.title == Table(LookupRule(id).value).title
      && s.wcagCriteria == Table(LookupRule(id).value).criteria
    ensures LookupRule(id).None? ==> StartsWith(s.title, "Fix: ")
  {
    match LookupRule(id)
    case Some(rule) => FromAdvice(rule, ActualHtml(issue), rewrite, now)
    case None => Fallback(issue)
  }

  // ---------------------------------------------------------------------
  // Properties

  /** Every rule is found under its own id: the lookup inverts `RuleName`. */
  lemma LookupFindsEveryRule(rule: RuleId)
    ensures LookupRule(RuleName(rule)) == Some(rule)
  {
  }

  /** A known id gets its entry's title, description and criteria whatever the issue is. */
  lemma KnownIdIgnoresIssueText(rule: RuleId, issue1: Option<Issue>, issue2: Option<Issue>,
                                rewrite1: (string, string) -> string, rewrite2: (string, string) -> string, now: nat)
    ensures var s1 := GetSolution(RuleName(rule), issue1, rewrite1, now);
      var s2 := GetSolution(RuleName(rule), issue2, rewrite2, now);
      && s1.title == s2.title == Table(rule).title
      && s1.description == s2.description == Table(rule).description
      && s1.wcagCriteria == s2.wcagCriteria == Table(rule).criteria
  {
    LookupFindsEveryRule(rule);
  }

  lemma ImageAltCriteria(issue: Option<Issue>, rewrite: (string, string) -> string, now: nat)
    ensures GetSolution("image-alt", issue, rewrite, now).wcagCriteria == ["1.1.1 Non-text Content"]
  {
    LookupFindsEveryRule(ImageAlt);
  }

  lemma ColorContrastCriteria(issue: Option<Issue>, rewrite: (string, string) -> string, now: nat)
    ensures GetSolution("color-contrast", issue, rewrite, now).wcagCriteria
      == ["1.4.3 Contrast (Minimum)", "1.4.6 Contrast (Enhanced)"]
  {
    LookupFindsEveryRule(ColorContrast);
  }

  /** For the five fixed entries the whole solution is independent of the issue and the rewrite. */
  lemma FixedEntriesIgnoreIssue(rule: RuleId, issue1: Option<Issue>, issue2: Option<Issue>,
                                rewrite1: (string, string) -> string, rewrite2: (string, string) -> string, now: nat)
    requires IsFixed(rule)
    ensures GetSolution(RuleName(rule), issue1, rewrite1, now) == GetSolution(RuleName(rule), issue2, rewrite2, now)
    ensures GetSolution(RuleName(rule), issue1, rewrite1, now).codeExample
      == CodeExample(Table(rule).before, Table(rule).after)
  {
    LookupFindsEveryRule(rule);
  }

  /**
   * For an adapting entry, markup present means `before` is that markup and
   * `after` is the rewritten markup with the entry's lead and note; no markup
   * means the stock example.
   */
  lemma AdaptingEntryShowsMarkup(rule: RuleId, issue: Option<Issue>, rewrite: (string, string) -> string, now: nat)
    requires !IsFixed(rule)
    ensures var id := RuleName(rule);
      var s := GetSolution(id, issue, rewrite, now);
      var advice := Table(rule);
      var html := ActualHtml(issue);
      && (html != "" ==> s.codeExample == CodeExample(html, FixLead(rule, now) + rewrite(id, html) + advice.fixNote))
      && (html == "" ==> s.codeExample == CodeExample(advice.before, advice.after))
  {
    LookupFindsEveryRule(rule);
  }

  lemma TabindexShowsMarkup(issue: Option<Issue>, rewrite: (string, string) -> string, now: nat)
    requires ActualHtml(issue) != ""
    ensures GetSolution("tabindex", issue, rewrite, now).codeExample.before == ActualHtml(issue)
  {
    AdaptingEntryShowsMarkup(Tabindex, issue, rewrite, now);
  }

  /** A tag is kept exactly when it starts with "wcag", and the kept tags stay in order. */
  lemma {:induction false} WcagTagsExactly(tags: seq<string>)
    ensures forall t :: t in WcagTags(tags) <==> t in tags && StartsWith(t, "wcag")
    ensures IsSubsequence(WcagTags(tags), tags)
    decreases |tags|
  {
    if |tags| > 0 {
      WcagTagsExactly(tags[1..]);
      assert tags == [tags[0]] + tags[1..];
    }
  }

  /**
   * An id the table does not hold gets "Fix: " and the help (or the default
   * subject), the issue's description (or the default sentence), the issue's
   * wcag tags in order (or none without an issue), and an example built on
   * the markup when there is some.
   */
  lemma UnknownIdFallsBack(id: string, issue: Option<Issue>, rewrite: (string, string) -> string, now: nat)
    requires forall r: RuleId :: RuleName(r) != id
    ensures var s := GetSolution(id, issue, rewrite, now);
      var html := ActualHtml(issue);
      && StartsWith(s.title, "Fix: ")
      && s.title[5..] == (if issue.Some? && issue.value.help != "" then issue.value.help else DefaultTitleSubject)
      && s.description == (if issue.Some? && issue.value.description != "" then issue.value.description else DefaultDescription)
      && (html != "" ==> s.codeExample == CodeExample(html, html + FallbackNote))
      && (html == "" ==> s.codeExample == CodeExample(DefaultBefore, DefaultAfter))
      && (issue.None? ==> s.wcagCriteria == [])
      && (issue.Some? ==>
            && IsSubsequence(s.wcagCriteria, issue.value.tags)
            && forall t :: t in s.wcagCriteria <==> t in issue.value.tags && StartsWith(t, "wcag"))
  {
    var s := GetSolution(id, issue, rewrite, now);
    assert LookupRule(id).None?;
    assert s == Fallback(issue);
    assert s.title[..5] == "Fix: ";
    if issue.Some? {
      WcagTagsExactly(issue.value.tags);
    }
  }
}
