/** Platform verdict: `detectWordPress` (api/inspect.js and inspect.js, identical in both). */
module Signals {
  import opened Wrappers
  import opened JsText
  import opened Dom

  /**
   * The signal record. `metaGenerator` is None when the page has no generator meta tag
   * (or it has no content): JavaScript's `undefined`, which is not `=== true`.
   */
  datatype WpSignals = WpSignals(
    wpContent: bool,
    wpIncludes: bool,
    metaGenerator: Option<bool>,
    wpJson: bool,
    xmlrpc: bool)

  datatype Detection = Detection(isWordPress: bool, signals: WpSignals)

  /**
   * The signals of a page. `restStatus` is the status of the request to `/wp-json/`
   * when it returned (statuses below 500), None when it threw.
   */
  function CollectSignals(page: Page, restStatus: Option<int>): WpSignals {
    WpSignals(
      wpContent := Contains(page.html, "/wp-content/"),
      wpIncludes := Contains(page.html, "/wp-includes/"),
      metaGenerator := match page.generator
                       case None => None
                       case Some(content) => Some(Contains(content, "WordPress")),
      wpJson := restStatus == Some(200),
      xmlrpc := false)
  }

  /** `Object.values(wpSignals)`, in declaration order. */
  function SignalValues(s: WpSignals): (vs: seq<Option<bool>>)
    ensures |vs| == 5
  {
    [Some(s.wpContent), Some(s.wpIncludes), s.metaGenerator, Some(s.wpJson), Some(s.xmlrpc)]
  }

  /** `values.some(signal => signal === true)`. */
  function SomeTrue(vs: seq<Option<bool>>): (b: bool)
    ensures b <==> exists k | 0 <= k < |vs| :: vs[k] == Some(true)
  {
    if vs == [] then false else vs[0] == Some(true) || SomeTrue(vs[1..])
  }

  /**
   * The verdict is an OR over the signals: true exactly when the HTML mentions
   * `/wp-content/` or `/wp-includes/`, the generator tag names WordPress, or `/wp-json/`
   * answered 200. `xmlrpc` is never set, and `wpJson` needs exactly 200.
   */
  function DetectWordPress(page: Page, restStatus: Option<int>): (d: Detection)
    ensures d.signals == CollectSignals(page, restStatus)
    ensures !d.signals.xmlrpc
    ensures d.signals.wpJson <==> restStatus == Some(200)
    ensures d.isWordPress <==>
      || Contains(page.html, "/wp-content/")
      || Contains(page.html, "/wp-includes/")
      || (page.generator.Some? && Contains(page.generator.value, "WordPress"))
      || restStatus == Some(200)
  {
    var signals := CollectSignals(page, restStatus);
    var vs := SignalValues(signals);
    assert vs[2] == signals.metaGenerator;
    Detection(SomeTrue(vs), signals)
  }

  /** A generator tag that is missing counts as no evidence, exactly like one that does not name WordPress. */
  lemma MissingGeneratorIsNoEvidence(page: Page, restStatus: Option<int>)
    requires page.generator.None?
    ensures DetectWordPress(page, restStatus).isWordPress ==
            DetectWordPress(page.(generator := Some("")), restStatus).isWordPress
  {
    assert !Contains("", "WordPress") by {
      forall i | 0 <= i <= 0 ensures !StartsWith(""[i..], "WordPress") { }
    }
  }
}
