/**
 * The custom-or-template verdict: `analyzeCustomization` (identical in api/inspect.js
 * and inspect.js).
 *
 * Four fixed rules each fire at most once, in a fixed order, adding a fixed delta to a
 * raw score and pushing one indicator; the verdict is `raw > 20`, and the reported
 * confidence is `raw + 50` clamped to [0, 100].
 */
module Scoring {
  import opened Wrappers
  import opened JsText
  import opened Theme
  import opened Plugins

  datatype Analysis = Analysis(isCustom: bool, confidence: int, indicators: seq<string>)

  const CommonThemes := ["astra", "generatepress", "oceanwp", "neve", "kadence",
                         "hello-elementor", "blocksy", "twentytwenty", "avada", "divi"]
  const PageBuilders := ["elementor", "wpbakery", "beaver-builder", "divi-builder"]

  const NotFromRepositoryNote := "Theme no es del repositorio oficial"
  const ChildThemeNote := "Es un child theme (probablemente personalizado)"
  const PageBuilderNote := "Usa page builder (común en templates)"

  /** `${x}` of a value that is a string or null. */
  function Display(o: Option<string>): string {
    if o.Some? then o.value else "null"
  }

  function PopularNote(t: ThemeInfo): string {
    "Theme popular/template: " + Display(t.name)
  }

  // ---------------------------------------------------------------- the four rules

  /** Rule 1: a named theme whose URI, if any, does not mention wordpress.org. */
  predicate NotFromRepository(t: ThemeInfo) {
    Truthy(t.name) && !(t.uri.Some? && Contains(t.uri.value, "wordpress.org"))
  }

  /** `themeInfo.name?.toLowerCase() || ''`. */
  function LowerName(t: ThemeInfo): string {
    if t.name.Some? then ToLower(t.name.value) else ""
  }

  /** Rule 3: the lower-cased name contains one of the common theme names. */
  predicate IsCommonTheme(t: ThemeInfo) {
    exists k | 0 <= k < |CommonThemes| :: Contains(LowerName(t), CommonThemes[k])
  }

  /** Rule 4: some plugin slug contains one of the page-builder names. */
  predicate UsesPageBuilder(plugins: seq<Plugin>) {
    exists i, k | 0 <= i < |plugins| && 0 <= k < |PageBuilders| :: Contains(plugins[i].slug, PageBuilders[k])
  }

  /** The raw score: the sum of the deltas of the rules that fire. */
  function Raw(t: ThemeInfo, plugins: seq<Plugin>): int {
    (if NotFromRepository(t) then 30 else 0)
      + (if t.isChildTheme then 40 else 0)
      - (if IsCommonTheme(t) then 20 else 0)
      - (if UsesPageBuilder(plugins) then 15 else 0)
  }

  /** The indicators of the rules that fire, in rule order. */
  function Indicators(t: ThemeInfo, plugins: seq<Plugin>): seq<string> {
    (if NotFromRepository(t) then [NotFromRepositoryNote] else [])
      + (if t.isChildTheme then [ChildThemeNote] else [])
      + (if IsCommonTheme(t) then [PopularNote(t)] else [])
      + (if UsesPageBuilder(plugins) then [PageBuilderNote] else [])
  }

  /** `Math.max(0, Math.min(100, x))`. */
  function Clamp(x: int): (r: int)
    ensures 0 <= r <= 100
    ensures 0 <= x <= 100 ==> r == x
    ensures x < 0 ==> r == 0
    ensures x > 100 ==> r == 100
  {
    if x < 0 then 0 else if x > 100 then 100 else x
  }

  // ---------------------------------------------------------------- the accumulator

  /** `analyzeCustomization`: each rule in turn pushes its indicator and moves the running score. */
  method AnalyzeCustomization(t: ThemeInfo, plugins: seq<Plugin>) returns (a: Analysis)
    ensures a.indicators == Indicators(t, plugins)
    ensures a.isCustom <==> Raw(t, plugins) > 20
    ensures a.confidence == Clamp(Raw(t, plugins) + 50)
  {
    var confidence := 0;
    var indicators: seq<string> := [];
    if Truthy(t.name) && !(t.uri.Some? && Contains(t.uri.value, "wordpress.org")) {
      indicators := indicators + [NotFromRepositoryNote];
      confidence := confidence + 30;
    }
    if t.isChildTheme {
      indicators := indicators + [ChildThemeNote];
      confidence := confidence + 40;
    }
    var themeName := if t.name.Some? then ToLower(t.name.value) else "";
    var isCommonTheme := MentionsCommonTheme(themeName);
    if isCommonTheme {
      indicators := indicators + ["Theme popular/template: " + Display(t.name)];
      confidence := confidence - 20;
    }
    var hasPageBuilder := HasPageBuilder(plugins);
    if hasPageBuilder {
      indicators := indicators + [PageBuilderNote];
      confidence := confidence - 15;
    }
    var isCustom := confidence > 20;
    confidence := Clamp(confidence + 50);
    a := Analysis(isCustom, confidence, indicators);
  }

  /** `commonThemes.some(common => themeName.includes(common))`. */
  method MentionsCommonTheme(themeName: string) returns (found: bool)
    ensures found <==> exists k | 0 <= k < |CommonThemes| :: Contains(themeName, CommonThemes[k])
  {
    found := false;
    for k := 0 to |CommonThemes|
      invariant forall j | 0 <= j < k :: !Contains(themeName, CommonThemes[j])
    {
      if Contains(themeName, CommonThemes[k]) {
        return true;
      }
    }
  }

  /** `plugins.some(p => pageBuilders.some(pb => p.slug.includes(pb)))`. */
  method HasPageBuilder(plugins: seq<Plugin>) returns (found: bool)
    ensures found <==> UsesPageBuilder(plugins)
  {
    found := false;
    for i := 0 to |plugins|
      invariant !found
      invariant forall i', k | 0 <= i' < i && 0 <= k < |PageBuilders| :: !Contains(plugins[i'].slug, PageBuilders[k])
    {
      for k := 0 to |PageBuilders|
        invariant forall k' | 0 <= k' < k :: !Contains(plugins[i].slug, PageBuilders[k'])
      {
        if Contains(plugins[i].slug, PageBuilders[k]) {
          return true;
        }
      }
    }
  }

  // ---------------------------------------------------------------- what the verdict means

  /** The raw score lies in [-35, 70], so the confidence lies in [15, 100]: the lower clamp never acts. */
  lemma ConfidenceRange(t: ThemeInfo, plugins: seq<Plugin>)
    ensures -35 <= Raw(t, plugins) <= 70
    ensures 15 <= Clamp(Raw(t, plugins) + 50) <= 100
    ensures Raw(t, plugins) <= 50 ==> Clamp(Raw(t, plugins) + 50) == Raw(t, plugins) + 50
  {
  }

  /** The verdict is "custom" exactly when the reported confidence exceeds 70. */
  lemma CustomIffConfident(t: ThemeInfo, plugins: seq<Plugin>)
    ensures Raw(t, plugins) > 20 <==> Clamp(Raw(t, plugins) + 50) > 70
  {
  }

  /**
   * The verdict as a decision table: custom exactly when the theme is a child theme that
   * is either unnamed-by-the-repository or not a common theme, or when it is a
   * non-repository theme that is neither common nor built with a page builder.
   */
  lemma CustomDecisionTable(t: ThemeInfo, plugins: seq<Plugin>)
    ensures Raw(t, plugins) > 20 <==>
      || (t.isChildTheme && (NotFromRepository(t) || !IsCommonTheme(t)))
      || (NotFromRepository(t) && !IsCommonTheme(t) && !UsesPageBuilder(plugins))
  {
  }

  /** Each rule contributes at most one indicator, so there are at most four, and none without its rule. */
  lemma IndicatorsPerRule(t: ThemeInfo, plugins: seq<Plugin>)
    ensures |Indicators(t, plugins)| <= 4
    ensures NotFromRepositoryNote in Indicators(t, plugins) <==> NotFromRepository(t)
    ensures ChildThemeNote in Indicators(t, plugins) <==> t.isChildTheme
    ensures PageBuilderNote in Indicators(t, plugins) <==> UsesPageBuilder(plugins)
    ensures |Indicators(t, plugins)| ==
      (if NotFromRepository(t) then 1 else 0) + (if t.isChildTheme then 1 else 0)
        + (if IsCommonTheme(t) then 1 else 0) + (if UsesPageBuilder(plugins) then 1 else 0)
  {
    var p := PopularNote(t);
    assert p[0] == 'T' && p[6] == 'p' && p[20] == 't';
    assert NotFromRepositoryNote[6] == 'n' && NotFromRepositoryNote[20] == 's';
    assert ChildThemeNote[20] == 'r';
    assert PageBuilderNote[0] == 'U' && PageBuilderNote[20] == 'm';
  }

  /** A common theme always has a name: the popular-theme indicator never shows "null". */
  lemma CommonThemeIsNamed(t: ThemeInfo)
    requires IsCommonTheme(t)
    ensures t.name.Some?
    ensures PopularNote(t) == "Theme popular/template: " + t.name.value
  {
  }

  /** A child theme that is not a common theme is always judged custom, whatever the plugins. */
  lemma UncommonChildIsCustom(t: ThemeInfo, plugins: seq<Plugin>)
    requires t.isChildTheme && !IsCommonTheme(t)
    ensures Raw(t, plugins) > 20
    ensures Clamp(Raw(t, plugins) + 50) >= 75
  {
  }

  /** Nothing fires: not custom, confidence 50, no indicators. */
  lemma NoEvidenceIsNeutral(t: ThemeInfo, plugins: seq<Plugin>)
    requires !NotFromRepository(t) && !t.isChildTheme && !IsCommonTheme(t) && !UsesPageBuilder(plugins)
    ensures Raw(t, plugins) == 0 && Clamp(Raw(t, plugins) + 50) == 50
    ensures Indicators(t, plugins) == []
  {
  }
}
